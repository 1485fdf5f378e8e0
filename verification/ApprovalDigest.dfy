/** The request snapshot an approval stores and the digest that ties its consumption to it. */
module ApprovalDigest {
  import opened Options
  import opened CanonicalJson
  import opened Records
  import Approvals
  import AuditChain

  const MAX_REQUEST_BYTES: nat := 16384
  const DIGEST_KEYS: seq<string> := ["operation", "targetType", "targetId", "request"]

  function Utf8Length(s: string): nat {
    if |s| == 0 then 0
    else Utf8Length(s[..|s| - 1])
         + (var c := s[|s| - 1] as int; if c < 0x80 then 1 else if c < 0x800 then 2 else if c < 0x10000 then 3 else 4)
  }

  /** The listed properties the request defines, in the list's order. */
  function Picked(keys: seq<string>, source: Fields): Fields {
    if |keys| == 0 then NoFields
    else match Get(source, keys[0])
      case Some(v) => Field(keys[0], v, Picked(keys[1..], source))
      case None => Picked(keys[1..], source)
  }

  /** `approvalRequestSnapshot`: pick, serialise, measure, parse. */
  function Snapshot(le: KeyOrder, keys: seq<string>, request: Json): Option<Json> {
    if !request.Obj? then None
    else
      var serialized := Text(le, Obj(Picked(keys, request.fields)));
      if Utf8Length(serialized) > MAX_REQUEST_BYTES then None else Parse(serialized)
  }

  datatype Input = Input(operation: string, targetType: string, targetId: string, request: Json)

  function InputValues(input: Input): (vs: seq<Json>)
    ensures |vs| == |DIGEST_KEYS|
  {
    [Str(input.operation), Str(input.targetType), Str(input.targetId), input.request]
  }

  function InputText(le: KeyOrder, input: Input): string { Text(le, Obj(Record(DIGEST_KEYS, InputValues(input)))) }

  function ApprovalHash(h: AuditChain.Hashing, input: Input): string { h.sha(InputText(h.le, input)) }

  lemma DigestKeysDistinct()
    ensures Distinct(DIGEST_KEYS)
  {
    ToldApartDistinct(DIGEST_KEYS);
  }

  lemma {:induction false} PickedGet(keys: seq<string>, source: Fields, k: string)
    requires Distinct(keys)
    ensures Get(Picked(keys, source), k) == if k in keys then Get(source, k) else None
    ensures Has(Picked(keys, source), k) ==> k in keys
  {
    if |keys| > 0 {
      PickedGet(keys[1..], source, k);
      assert k in keys <==> k == keys[0] || k in keys[1..];
    }
  }

  lemma {:induction false} PickedDistinct(keys: seq<string>, source: Fields)
    requires Distinct(keys) && DistinctInFields(source)
    ensures DistinctInFields(Picked(keys, source))
  {
    if |keys| > 0 {
      PickedDistinct(keys[1..], source);
      if Get(source, keys[0]).Some? {
        PickedGet(keys[1..], source, keys[0]);
        GetDistinct(source, keys[0]);
      }
    }
  }

  /** A stored snapshot is the listed part of the request, as the same JSON value, and nothing else;
      taking a snapshot of it again changes neither value nor digest. */
  lemma SnapshotIsRequest(h: AuditChain.Hashing, keys: seq<string>, request: Json)
    requires TotalPreorder(h.le) && Distinct(keys) && DistinctKeys(request) && Snapshot(h.le, keys, request).Some?
    ensures request.Obj?
    ensures var snapshot := Snapshot(h.le, keys, request).value;
      && snapshot.Obj? && DistinctKeys(snapshot)
      && (forall k | k in keys :: Get(snapshot.fields, k).Some? <==> Get(request.fields, k).Some?)
      && (forall k | k in keys && Get(request.fields, k).Some? && Get(snapshot.fields, k).Some? ::
            Equivalent(Get(request.fields, k).value, Get(snapshot.fields, k).value))
      && (forall k | k !in keys :: Get(snapshot.fields, k).None?)
  {
    PickedDistinct(keys, request.fields);
    var picked := Obj(Picked(keys, request.fields));
    TextRoundTrip(h.le, picked);
    forall k ensures Get(Picked(keys, request.fields), k) == if k in keys then Get(request.fields, k) else None {
      PickedGet(keys, request.fields, k);
    }
    hide Text, Parse, Picked, Get;
  }

  function Width(c: char): nat { if c as int <= 127 then 1 else if c as int <= 2047 then 2 else if c as int <= 65535 then 3 else 4 }

  /** A text's bytes: one, two, three or four for each character by its code point, however it is cut. */
  lemma {:induction false} Utf8Adds(a: string, b: string)
    ensures Utf8Length(a + b) == Utf8Length(a) + Utf8Length(b)
    ensures forall c: char :: Utf8Length([c]) == Width(c)
  {
    forall c: char ensures Utf8Length([c]) == Width(c) { assert [c][..0] == ""; }
    if |b| == 0 {
      assert a + b == a;
    } else {
      Utf8Adds(a, b[..|b| - 1]);
      assert (a + b)[..|a + b| - 1] == a + b[..|b| - 1];
    }
  }

  /** A request is taken exactly when it is an object whose listed properties come to at most 16384 bytes
      of canonical text. */
  lemma SnapshotTakenIff(h: AuditChain.Hashing, keys: seq<string>, request: Json)
    requires TotalPreorder(h.le) && Distinct(keys) && DistinctKeys(request)
    ensures Snapshot(h.le, keys, request).Some? <==>
      request.Obj? && Utf8Length(Text(h.le, Obj(Picked(keys, request.fields)))) <= 16384
  {
    if request.Obj? {
      PickedDistinct(keys, request.fields);
      TextRoundTrip(h.le, Obj(Picked(keys, request.fields)));
    }
    hide Text, Parse, Picked, Utf8Length;
  }

  lemma InputDistinct(input: Input)
    requires DistinctKeys(input.request)
    ensures DistinctKeys(Obj(Record(DIGEST_KEYS, InputValues(input))))
  {
    DigestKeysDistinct();
    RecordDistinct(DIGEST_KEYS, InputValues(input));
  }

  /** One digest, one request: operation, target and the request as a JSON value; or a collision. */
  lemma DigestPinsRequest(h: AuditChain.Hashing, a: Input, b: Input)
    requires ApprovalHash(h, a) == ApprovalHash(h, b) && DistinctKeys(a.request) && DistinctKeys(b.request)
    ensures || (&& a.operation == b.operation && a.targetType == b.targetType && a.targetId == b.targetId
                && Equivalent(a.request, b.request))
            || AuditChain.Collision(h, InputText(h.le, a), InputText(h.le, b))
  {
    if InputText(h.le, a) == InputText(h.le, b) {
      InputDistinct(a);
      InputDistinct(b);
      DigestKeysDistinct();
      hide Record, Text, ToldApart, DistinctKeys;
      var vs, ws := InputValues(a), InputValues(b);
      SameTextSameValue(h.le, Obj(Record(DIGEST_KEYS, vs)), Obj(Record(DIGEST_KEYS, ws)));
      forall i: nat | i < 4 ensures Equivalent(vs[i], ws[i]) { EquivalentRecords(DIGEST_KEYS, vs, ws, i); }
      assert Equivalent(vs[0], ws[0]) && Equivalent(vs[1], ws[1]) && Equivalent(vs[2], ws[2]) && Equivalent(vs[3], ws[3]);
    }
  }

  lemma RequestDecidesText(le: KeyOrder, a: Input, b: Input)
    requires a.(request := Null) == b.(request := Null) && DistinctKeys(a.request) && DistinctKeys(b.request)
    requires !a.request.Undefined? && !b.request.Undefined?
    ensures InputText(le, a) == InputText(le, b) <==> Text(le, a.request) == Text(le, b.request)
  {
    var vs, ws, keys := InputValues(a), InputValues(b), DIGEST_KEYS;
    DigestKeysDistinct();
    assert |keys| == 4 && vs[3] == a.request && ws[3] == b.request;
    assert forall i | 0 <= i < 4 :: DistinctKeys(vs[i]) && DistinctKeys(ws[i]);
    assert forall i | 0 <= i < 3 :: vs[i] == ws[i];
    hide DIGEST_KEYS, InputValues, Distinct, ToldApart;
    TextParses(le, a.request);
    TextParses(le, b.request);
    TextParses(le, Obj(Record(keys, vs)));
    TextParses(le, Obj(Record(keys, ws)));
    CanonicalRecordGet(le, keys, vs, 3);
    CanonicalRecordGet(le, keys, ws, 3);
    assert Canonical(le, Obj(Record(keys, vs))) == Obj(CanonicalFields(le, Record(keys, vs)));
    assert Canonical(le, Obj(Record(keys, ws))) == Obj(CanonicalFields(le, Record(keys, ws)));
    hide Record, Get, Canonical, CanonicalFields, Write, Parse;
    if Canonical(le, a.request) == Canonical(le, b.request) { RecordCanonical(le, keys, vs, ws); }
  }

  /** The same request in another key order has the digest it was approved under, if it has no ties. */
  lemma SameRequestSameDigest(h: AuditChain.Hashing, a: Input, b: Input)
    requires TotalPreorder(h.le) && Untied(h.le, a.request) && DistinctKeys(a.request) && DistinctKeys(b.request)
    requires a.(request := Null) == b.(request := Null) && Equivalent(a.request, b.request)
    requires !a.request.Undefined? && !b.request.Undefined?
    ensures ApprovalHash(h, a) == ApprovalHash(h, b)
  {
    RequestDecidesText(h.le, a, b);
    hide InputText, Text, Untied;
    SameValueSameText(h.le, a.request, b.request);
  }

  /** The same request in another key order has the digest it was approved under exactly when tied keys
      come in the same order in both, at every depth, unless two texts collide. */
  lemma ReorderedDigestIff(h: AuditChain.Hashing, a: Input, b: Input)
    requires TotalPreorder(h.le) && a.(request := Null) == b.(request := Null) && Equivalent(a.request, b.request)
    requires DistinctKeys(a.request) && DistinctKeys(b.request) && !a.request.Undefined? && !b.request.Undefined?
    ensures || (ApprovalHash(h, a) == ApprovalHash(h, b) <==> SameTies(h.le, a.request, b.request))
            || AuditChain.Collision(h, InputText(h.le, a), InputText(h.le, b))
  {
    RequestDecidesText(h.le, a, b);
    hide InputText, Text, SameTies;
    SameTextIff(h.le, a.request, b.request);
  }

  /** So a request whose caller chose tied keys somewhere can be sent again as the same JSON value and
      no longer match its approval. */
  lemma TiedRequestCanMiss(h: AuditChain.Hashing, a: Input) returns (b: Input)
    requires TotalPreorder(h.le) && DistinctKeys(a.request) && !Untied(h.le, a.request)
    ensures a.(request := Null) == b.(request := Null) && Equivalent(a.request, b.request)
    ensures ApprovalHash(h, a) != ApprovalHash(h, b) || AuditChain.Collision(h, InputText(h.le, a), InputText(h.le, b))
  {
    var w := Twin(h.le, a.request);
    b := a.(request := w);
    hide InputText, Text, SameTies, Untied;
    SameCanonicalIff(h.le, a.request, w);
    ReorderedDigestIff(h, a, b);
  }

  /* ---- The digest of the snapshot and the digest of the request ---- */

  predicate OnlyListed(keys: seq<string>, f: Fields) {
    f.Field? ==> (f.key in keys || f.value.Undefined?) && OnlyListed(keys, f.rest)
  }

  lemma {:induction false} ListedGet(keys: seq<string>, f: Fields)
    requires DistinctInFields(f)
    ensures OnlyListed(keys, f) <==> forall k | Get(f, k).Some? :: k in keys
  {
    if f.Field? {
      ListedGet(keys, f.rest);
      MissingGet(f.rest, f.key);
      assert Get(f, f.key).Some? <==> !f.value.Undefined?;
      forall k | Get(f.rest, k).Some? ensures Get(f, k) == Get(f.rest, k) {}
    }
  }

  lemma PickedEquivalentIff(keys: seq<string>, request: Json)
    requires request.Obj? && Distinct(keys) && DistinctKeys(request)
    ensures Equivalent(request, Obj(Picked(keys, request.fields))) <==> OnlyListed(keys, request.fields)
  {
    ListedGet(keys, request.fields);
    forall k
      ensures Get(Picked(keys, request.fields), k) == if k in keys then Get(request.fields, k) else None
      ensures Get(request.fields, k).Some? ==> Equivalent(Get(request.fields, k).value, Get(request.fields, k).value)
    {
      PickedGet(keys, request.fields, k);
      if Get(request.fields, k).Some? { Reflexive(Get(request.fields, k).value); }
    }
  }

  /** An approval stores the digest of its snapshot; consuming it takes the digest of the request as it
      stands. The two agree, for one request without ties, exactly when the request defines nothing
      beyond the listed properties, unless two texts collide. */
  lemma OwnRequestAcceptedIff(h: AuditChain.Hashing, keys: seq<string>, input: Input)
    requires TotalPreorder(h.le) && Distinct(keys) && DistinctKeys(input.request) && Untied(h.le, input.request)
    requires Snapshot(h.le, keys, input.request).Some?
    ensures input.request.Obj?
    ensures var stored := input.(request := Snapshot(h.le, keys, input.request).value);
      || (ApprovalHash(h, stored) == ApprovalHash(h, input) <==> OnlyListed(keys, input.request.fields))
      || AuditChain.Collision(h, InputText(h.le, stored), InputText(h.le, input))
  {
    var picked := Obj(Picked(keys, input.request.fields));
    var stored := input.(request := Snapshot(h.le, keys, input.request).value);
    PickedDistinct(keys, input.request.fields);
    TextRoundTrip(h.le, picked);
    PickedEquivalentIff(keys, input.request);
    RequestDecidesText(h.le, stored, input);
    assert Text(h.le, stored.request) == Text(h.le, picked);
    hide Text, Parse, Picked, Untied, Equivalent, InputText, Utf8Length, OnlyListed;
    if OnlyListed(keys, input.request.fields) {
      SameValueSameText(h.le, input.request, picked);
    } else if Text(h.le, picked) == Text(h.le, input.request) {
      SameTextSameValue(h.le, input.request, picked);
    }
  }

  /* ---- Requests and consumptions through the service ---- */

  /** Calls of the service; `Other` are the sweeps and decisions of the store. */
  datatype Call =
    | Request(id: string, requester: string, input: Input, required: nat, expiresAt: int)
    | Consumption(id: string, account: string, input: Input, at: int)
    | Other(step: Approvals.Step)

  /** The listed properties of each operation. */
  type Listing = string -> seq<string>

  /** The store transaction a call leads to, if it gets that far. */
  function StoreStep(h: AuditChain.Hashing, listing: Listing, call: Call): Option<Approvals.Step> {
    match call
    case Request(id, requester, input, required, expiresAt) =>
      var snapshot :- Snapshot(h.le, listing(input.operation), input.request);
      Some(Approvals.Create(id, Approvals.Approval(
        requester, input.operation, input.targetType, input.targetId, ApprovalHash(h, input.(request := snapshot)),
        Approvals.Pending, required, expiresAt, None)))
    case Consumption(id, account, input, at) =>
      Some(Approvals.Consume(Approvals.Use(id, account, input.operation, input.targetType, input.targetId,
                                           ApprovalHash(h, input), at)))
    case Other(step) => if step.Sweep? || step.Decide? then Some(step) else None
  }

  function StoreSteps(h: AuditChain.Hashing, listing: Listing, calls: seq<Call>): seq<Approvals.Step> {
    if |calls| == 0 then []
    else
      var before := StoreSteps(h, listing, calls[..|calls| - 1]);
      match StoreStep(h, listing, calls[|calls| - 1])
      case None => before
      case Some(step) => before + [step]
  }

  function After(h: AuditChain.Hashing, listing: Listing, calls: seq<Call>): Approvals.World {
    Approvals.Run(StoreSteps(h, listing, calls))
  }

  /** The row was written for this call: its terms, and the digest of the snapshot of its input. */
  predicate Asked(h: AuditChain.Hashing, listing: Listing, call: Call, id: string, a: Approvals.Approval) {
    && call.Request? && call.id == id && a.requester == call.requester
    && a.operation == call.input.operation && a.targetType == call.input.targetType && a.targetId == call.input.targetId
    && var snapshot := Snapshot(h.le, listing(call.input.operation), call.input.request);
       snapshot.Some? && a.requestHash == ApprovalHash(h, call.input.(request := snapshot.value))
  }

  lemma TermsStay(w: Approvals.World, s: Approvals.Step, id: string)
    requires id in Approvals.Apply(w, s).approvals
    ensures id in w.approvals ==> SameTerms(w.approvals[id], Approvals.Apply(w, s).approvals[id])
    ensures id !in w.approvals ==> s.Create? && s.id == id && SameTerms(s.approval, Approvals.Apply(w, s).approvals[id])
  {
    hide Approvals.CountApprovals;
  }

  predicate SameTerms(a: Approvals.Approval, b: Approvals.Approval) {
    && a.requester == b.requester && a.operation == b.operation && a.targetType == b.targetType
    && a.targetId == b.targetId && a.requestHash == b.requestHash
  }

  /** Every approval row comes from a request of the run, with the digest of that request's snapshot. */
  lemma {:induction false} RowsComeFromRequests(h: AuditChain.Hashing, listing: Listing, calls: seq<Call>, id: string)
    returns (i: nat)
    requires id in After(h, listing, calls).approvals
    ensures i < |calls| && Asked(h, listing, calls[i], id, After(h, listing, calls).approvals[id])
  {
    hide Approvals.Apply, ApprovalHash, Snapshot;
    assert |calls| > 0;
    var before, last := calls[..|calls| - 1], calls[|calls| - 1];
    var step := StoreStep(h, listing, last);
    var w := After(h, listing, before);
    if step.None? {
      i := RowsComeFromRequests(h, listing, before, id);
    } else {
      var steps := StoreSteps(h, listing, before);
      assert (steps + [step.value])[..|steps|] == steps;
      assert After(h, listing, calls) == Approvals.Apply(w, step.value);
      TermsStay(w, step.value, id);
      if id in w.approvals {
        i := RowsComeFromRequests(h, listing, before, id);
      } else {
        i := |calls| - 1;
      }
    }
  }

  /** What is consumed is what was approved: after any run of calls, a consumption that succeeds was
      asked for by the same administrator with the same operation and target, and its request is the
      snapshot approved, as a JSON value; or two texts collide. */
  lemma ConsumedIsApproved(h: AuditChain.Hashing, listing: Listing, calls: seq<Call>, use: Call)
    returns (i: nat, collision: Option<(string, string)>)
    requires TotalPreorder(h.le) && use.Consumption? && DistinctKeys(use.input.request)
    requires forall call | call in calls && call.Request? :: DistinctKeys(call.input.request) && Distinct(listing(call.input.operation))
    requires Approvals.Verdict(After(h, listing, calls), StoreStep(h, listing, use).value) == Approvals.Done
    ensures i < |calls| && calls[i].Request? && calls[i].id == use.id && calls[i].requester == use.account
    ensures var (asked, used) := (calls[i].input, use.input);
      && asked.operation == used.operation && asked.targetType == used.targetType && asked.targetId == used.targetId
      && Snapshot(h.le, listing(asked.operation), asked.request).Some?
      && match collision
         case Some((x, y)) => AuditChain.Collision(h, x, y)
         case None => Equivalent(Snapshot(h.le, listing(asked.operation), asked.request).value, used.request)
  {
    hide Snapshot, Equivalent, InputText, Distinct, Approvals.Run, StoreSteps;
    i := RowsComeFromRequests(h, listing, calls, use.id);
    assert calls[i] in calls;
    var asked := calls[i].input;
    var snapshot := Snapshot(h.le, listing(asked.operation), asked.request).value;
    SnapshotIsRequest(h, listing(asked.operation), asked.request);
    var stored := asked.(request := snapshot);
    DigestPinsRequest(h, stored, use.input);
    collision := if InputText(h.le, stored) == InputText(h.le, use.input) then None
                 else Some((InputText(h.le, stored), InputText(h.le, use.input)));
    if collision.None? { SameInputText(h.le, stored, use.input); }
  }

  lemma SameInputText(le: KeyOrder, a: Input, b: Input)
    requires InputText(le, a) == InputText(le, b) && DistinctKeys(a.request) && DistinctKeys(b.request)
    ensures Equivalent(a.request, b.request)
  {
    DigestPinsRequest(AuditChain.Hashing(le, x => x), a, b);
  }
}

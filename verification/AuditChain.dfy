/** The tamper-evident audit chain: appending, verifying, and what a receipt pins down. */
module AuditChain {
  import opened Options
  import opened CanonicalJson
  import opened Records

  /** How texts are hashed: the canonical key order and SHA-256, of which nothing is assumed. */
  datatype Hashing = Hashing(le: KeyOrder, sha: string -> string)

  function Zeros(n: nat): (s: string)
    ensures |s| == n
  {
    if n == 0 then "" else ['0'] + Zeros(n - 1)
  }

  const GENESIS_HASH: string := Zeros(64)

  datatype Input = Input(actorId: string, action: string, targetType: string, targetId: string, detail: Json,
                         createdAt: string)

  /** A row of the audit table that belongs to the chain. */
  datatype Event = Event(input: Input, previousHash: string, eventHash: string)

  /** The chained rows by sequence, which the unique index makes a map, and the one state row. */
  datatype Chain = Chain(rows: map<int, Event>, last: nat, head: string)

  const EMPTY_CHAIN: Chain := Chain(map[], 0, GENESIS_HASH)

  const EVENT_KEYS: seq<string> :=
    ["version", "sequence", "previousHash", "actorId", "action", "targetType", "targetId", "detail", "createdAt"]

  function EventValues(sequence: int, previousHash: string, e: Input): (vs: seq<Json>)
    ensures |vs| == |EVENT_KEYS|
  {
    [Num(1), Num(sequence), Str(previousHash), Str(e.actorId), Str(e.action), Str(e.targetType), Str(e.targetId),
     e.detail, Str(e.createdAt)]
  }

  function HashedText(h: Hashing, sequence: int, previousHash: string, e: Input): string {
    Text(h.le, Obj(Record(EVENT_KEYS, EventValues(sequence, previousHash, e))))
  }

  function EventHash(h: Hashing, sequence: int, previousHash: string, e: Input): string {
    h.sha(HashedText(h, sequence, previousHash, e))
  }

  /** The hash the n-th event has to name as its predecessor. */
  function HashAt(rows: map<int, Event>, n: nat): string {
    if n == 0 || n !in rows then GENESIS_HASH else rows[n].eventHash
  }

  predicate LinkOk(h: Hashing, rows: map<int, Event>, n: nat)
    requires n > 0
  {
    && n in rows
    && rows[n].previousHash == HashAt(rows, n - 1)
    && rows[n].eventHash == EventHash(h, n, HashAt(rows, n - 1), rows[n].input)
  }

  predicate Intact(h: Hashing, rows: map<int, Event>, n: nat) {
    forall k | 1 <= k <= n :: LinkOk(h, rows, k)
  }

  /** Events 1 to `last` form a hash chain from genesis to the stored head. */
  predicate ValidChain(h: Hashing, c: Chain) {
    Intact(h, c.rows, c.last) && HashAt(c.rows, c.last) == c.head
  }

  /* ---- Appending ---- */

  function NextEvent(h: Hashing, c: Chain, e: Input): Event {
    var previousHash := if c.head == "" then GENESIS_HASH else c.head;
    Event(e, previousHash, EventHash(h, c.last + 1, previousHash, e))
  }

  /** One append, or nothing when the sequence is taken and the unique index aborts it. */
  function Append(h: Hashing, c: Chain, e: Input): Chain {
    if c.last + 1 in c.rows then c
    else
      var event := NextEvent(h, c, e);
      Chain(c.rows[c.last + 1 := event], c.last + 1, event.eventHash)
  }

  function Appended(h: Hashing, c: Chain, es: seq<Input>): Chain {
    if |es| == 0 then c else Append(h, Appended(h, c, es[..|es| - 1]), es[|es| - 1])
  }

  /** No append, however many, touches a row at or below the snapshot it started from. */
  lemma {:induction false} AppendedKeepsRows(h: Hashing, c: Chain, es: seq<Input>)
    ensures Appended(h, c, es).last >= c.last
    ensures forall n | n <= c.last :: n in Appended(h, c, es).rows <==> n in c.rows
    ensures forall n | n <= c.last && n in c.rows :: Appended(h, c, es).rows[n] == c.rows[n]
  {
    if |es| > 0 { AppendedKeepsRows(h, c, es[..|es| - 1]); }
  }

  /** A hash as the state row's CHECK lets it be stored: never the empty string. */
  ghost predicate NonEmptyDigests(h: Hashing) { forall x :: h.sha(x) != "" }

  lemma AppendKeepsValid(h: Hashing, c: Chain, e: Input)
    requires NonEmptyDigests(h) && ValidChain(h, c)
    ensures ValidChain(h, Append(h, c, e))
    ensures Append(h, c, e).head != ""
  {
    hide EventHash;
    var c' := Append(h, c, e);
    HeadNotEmpty(h, c);
    if c.last + 1 !in c.rows {
      forall k | 1 <= k <= c'.last ensures LinkOk(h, c'.rows, k) {
        if k <= c.last { assert LinkOk(h, c.rows, k); }
      }
      HeadNotEmpty(h, c');
    }
  }

  lemma HeadNotEmpty(h: Hashing, c: Chain)
    requires NonEmptyDigests(h) && ValidChain(h, c)
    ensures c.head != ""
  {
    if c.last > 0 { assert LinkOk(h, c.rows, c.last); } else { assert |GENESIS_HASH| == 64; }
  }

  /** A chain that only appends have written is valid, has one row per append, in order, and keeps
      what each append was given. */
  lemma {:induction false} AppendsAreRecorded(h: Hashing, es: seq<Input>)
    requires NonEmptyDigests(h)
    ensures ValidChain(h, Appended(h, EMPTY_CHAIN, es)) && HasEvents(Appended(h, EMPTY_CHAIN, es), es)
  {
    hide Append, ValidChain, HasEvents;
    if |es| == 0 {
      EmptyIsValid(h);
    } else {
      var before, last := es[..|es| - 1], es[|es| - 1];
      AppendsAreRecorded(h, before);
      AppendKeepsValid(h, Appended(h, EMPTY_CHAIN, before), last);
      AppendHasEvents(h, Appended(h, EMPTY_CHAIN, before), before, last);
      assert before + [last] == es;
    }
  }

  ghost predicate HasEvents(c: Chain, es: seq<Input>) {
    && c.last == |es|
    && (forall n :: n in c.rows <==> 1 <= n <= |es|)
    && (forall n | 1 <= n <= |es| :: n in c.rows && c.rows[n].input == es[n - 1])
  }

  lemma AppendHasEvents(h: Hashing, c: Chain, es: seq<Input>, e: Input)
    requires HasEvents(c, es)
    ensures HasEvents(Append(h, c, e), es + [e])
  {
    hide EventHash;
  }

  lemma EmptyIsValid(h: Hashing)
    ensures ValidChain(h, EMPTY_CHAIN) && HasEvents(EMPTY_CHAIN, [])
  {
  }

  /* ---- Verifying ---- */

  datatype Receipt = Receipt(issuer: string, generatedAt: string, valid: bool, checkedEvents: nat,
                             firstSequence: Option<int>, lastSequence: nat, headHash: string,
                             brokenAtSequence: Option<int>, legacyEventCount: nat)

  /** What a receipt has to say about a chain. */
  ghost predicate Verdict(h: Hashing, c: Chain, r: Receipt) {
    && r.valid == ValidChain(h, c) == r.brokenAtSequence.None?
    && r.lastSequence == c.last && r.headHash == c.head
    && r.firstSequence == (if c.last == 0 then None else Some(1))
    && r.checkedEvents <= c.last && Intact(h, c.rows, r.checkedEvents)
    && (r.checkedEvents < c.last ==> !LinkOk(h, c.rows, r.checkedEvents + 1))
    && (!r.valid ==> r.brokenAtSequence == Some(r.checkedEvents + 1))
  }

  /** The verdict is one receipt: the position named is the least that fails, or the one after the
      last when only the head differs. */
  lemma {:induction false} VerdictIsUnique(h: Hashing, c: Chain, r: Receipt, q: Receipt)
    requires Verdict(h, c, r) && Verdict(h, c, q)
    ensures r == q.(issuer := r.issuer, generatedAt := r.generatedAt, legacyEventCount := r.legacyEventCount)
    ensures r.brokenAtSequence.Some? && !Intact(h, c.rows, c.last) ==>
      && 1 <= r.brokenAtSequence.value <= c.last
      && !LinkOk(h, c.rows, r.brokenAtSequence.value)
      && forall k | 1 <= k < r.brokenAtSequence.value :: LinkOk(h, c.rows, k)
    ensures r.brokenAtSequence.Some? && Intact(h, c.rows, c.last) ==> r.brokenAtSequence.value == c.last + 1
  {
    hide LinkOk;
    if r.checkedEvents < q.checkedEvents {
      CheckedIsLeast(h, c, r, q.checkedEvents);
    } else if q.checkedEvents < r.checkedEvents {
      CheckedIsLeast(h, c, q, r.checkedEvents);
    }
  }

  lemma CheckedIsLeast(h: Hashing, c: Chain, r: Receipt, n: nat)
    requires Verdict(h, c, r) && r.checkedEvents < n <= c.last
    ensures !Intact(h, c.rows, n)
  {
    hide LinkOk, ValidChain;
    var k := r.checkedEvents + 1;
    assert 1 <= k <= n && !LinkOk(h, c.rows, k);
  }

  /** Rows of the table in ascending order, none left out between `after` and the last of them; and
      none at all only when there is none. */
  ghost predicate IsBatch(rows: map<int, Event>, after: int, through: int, batch: seq<(int, Event)>) {
    && (forall i | 0 <= i < |batch| ::
          && Before(batch, after, i) < batch[i].0 <= through
          && batch[i].0 in rows && rows[batch[i].0] == batch[i].1
          && forall n | Before(batch, after, i) < n < batch[i].0 :: n !in rows)
    && (batch == [] ==> forall n | after < n <= through :: n !in rows)
  }

  function Before(batch: seq<(int, Event)>, after: int, i: nat): int
    requires i <= |batch|
  {
    if i == 0 then after else batch[i - 1].0
  }

  /** `chain_sequence > after AND chain_sequence <= through ORDER BY chain_sequence LIMIT limit` */
  function Listed(rows: map<int, Event>, after: int, through: int, limit: nat): (batch: seq<(int, Event)>)
    ensures |batch| <= limit && (limit > 0 ==> IsBatch(rows, after, through, batch))
    decreases through - after
  {
    if limit == 0 || after >= through then []
    else if after + 1 !in rows then Listed(rows, after + 1, through, limit)
    else if limit == 1 then [(after + 1, rows[after + 1])]
    else [(after + 1, rows[after + 1])] + Listed(rows, after + 1, through, limit - 1)
  }

  class AuditStore {
    /** The events older than the chain, which nothing changes any more. */
    const legacyEvents: nat
    var rows: map<int, Event>
    var last: nat
    var head: string

    ghost function State(): Chain
      reads this
    {
      Chain(rows, last, head)
    }

    constructor (legacyEvents: nat)
      ensures State() == EMPTY_CHAIN && this.legacyEvents == legacyEvents
    {
      this.legacyEvents := legacyEvents;
      rows, last, head := map[], 0, GENESIS_HASH;
    }

    method AppendChainedAuditEvent(h: Hashing, e: Input) returns (ok: bool)
      modifies this
      ensures State() == Append(h, old(State()), e)
      ensures ok == (old(last) + 1 !in old(rows))
    {
      var sequence := last + 1;
      var previousHash := if head != "" then head else GENESIS_HASH;
      var eventHash := EventHash(h, sequence, previousHash, e);
      ok := sequence !in rows;
      if ok {
        rows := rows[sequence := Event(e, previousHash, eventHash)];
        last, head := sequence, eventHash;
      }
    }

    method AppendAll(h: Hashing, es: seq<Input>)
      modifies this
      ensures State() == Appended(h, old(State()), es)
    {
      hide Append;
      for i := 0 to |es|
        invariant State() == Appended(h, old(State()), es[..i])
      {
        var _ := AppendChainedAuditEvent(h, es[i]);
        assert es[..i + 1][..i] == es[..i];
      }
      assert es[..|es|] == es;
    }

    /** The batched verifier. `schedule[i]` are the events other requests append before its i-th query. */
    method Verify(h: Hashing, issuer: string, generatedAt: string, batchSize: nat, schedule: seq<seq<Input>>)
      returns (receipt: Receipt)
      requires batchSize > 0
      modifies this
      ensures Verdict(h, old(State()), receipt)
      ensures receipt.issuer == issuer && receipt.generatedAt == generatedAt && receipt.legacyEventCount == legacyEvents
      ensures old(last) <= last && SameUpTo(old(State()), rows)
    {
      hide EventHash, Appended, LinkOk, Intact, HashAt, ValidChain, Verdict, SameUpTo, Progress, IsBatch, Listed;
      Starts(h, State());
      ghost var snapshot := State();
      var lastSequence, headHash := last, head;
      var checkedEvents, previousHash, expectedSequence := 0, GENESIS_HASH, 1;
      var brokenAtSequence: Option<int> := None;
      var query := 0;
      while expectedSequence <= lastSequence && brokenAtSequence.None?
        invariant expectedSequence == checkedEvents + 1
        invariant snapshot.last <= last && SameUpTo(snapshot, rows)
        invariant Progress(h, snapshot, checkedEvents, previousHash, expectedSequence, brokenAtSequence)
        decreases lastSequence as int - checkedEvents as int, brokenAtSequence.None?
      {
        if query < |schedule| {
          AppendedSame(h, snapshot, State(), schedule[query]);
          AppendAll(h, schedule[query]);
          query := query + 1;
        }
        var batch := Listed(rows, expectedSequence - 1, lastSequence, batchSize);
        if |batch| == 0 {
          EmptyBatch(rows, expectedSequence - 1, lastSequence, batch);
          Missing(h, snapshot, rows, checkedEvents, previousHash);
          brokenAtSequence := Some(expectedSequence);
          break;
        }
        ghost var first, now := expectedSequence, State();
        for i := 0 to |batch|
          invariant Progress(h, snapshot, checkedEvents, previousHash, expectedSequence, brokenAtSequence)
          invariant brokenAtSequence.None? && expectedSequence == first + i == checkedEvents + 1
          invariant State() == now
          invariant Before(batch, first - 1, i) == expectedSequence - 1
        {
          var (chainSequence, event) := batch[i];
          NoGap(rows, first - 1, lastSequence, batch, i);
          CheckLink(h, snapshot, rows, checkedEvents, previousHash, chainSequence);
          if || chainSequence != expectedSequence
             || event.previousHash != previousHash
             || event.eventHash != EventHash(h, expectedSequence, previousHash, event.input)
          {
            brokenAtSequence := Some(expectedSequence);
            break;
          }
          checkedEvents := checkedEvents + 1;
          previousHash := event.eventHash;
          expectedSequence := expectedSequence + 1;
        }
      }
      if brokenAtSequence.None? && (checkedEvents != lastSequence || previousHash != headHash) {
        brokenAtSequence := Some(if expectedSequence > 1 then expectedSequence else 1);
      }
      receipt := Receipt(issuer, generatedAt, brokenAtSequence.None?, checkedEvents,
                         if lastSequence == 0 then None else Some(1), lastSequence, headHash, brokenAtSequence,
                         legacyEvents);
      Concludes(h, snapshot, receipt, previousHash, expectedSequence);
    }
  }

  /** The rows the verifier reads are those of its snapshot, whatever has been appended since. */
  ghost predicate SameUpTo(snapshot: Chain, rows: map<int, Event>) {
    forall n | n <= snapshot.last :: (n in rows <==> n in snapshot.rows) && (n in rows ==> rows[n] == snapshot.rows[n])
  }

  ghost predicate Progress(h: Hashing, c: Chain, checked: nat, previousHash: string, expected: int, broken: Option<int>) {
    && expected == checked + 1 <= c.last + 1
    && Intact(h, c.rows, checked) && previousHash == HashAt(c.rows, checked)
    && (broken.Some? ==> broken.value == expected <= c.last && !LinkOk(h, c.rows, expected))
  }

  lemma AppendedSame(h: Hashing, snapshot: Chain, now: Chain, es: seq<Input>)
    requires snapshot.last <= now.last && SameUpTo(snapshot, now.rows)
    ensures snapshot.last <= Appended(h, now, es).last && SameUpTo(snapshot, Appended(h, now, es).rows)
  {
    AppendedKeepsRows(h, now, es);
  }

  lemma Starts(h: Hashing, c: Chain)
    ensures Progress(h, c, 0, GENESIS_HASH, 1, None) && SameUpTo(c, c.rows)
  {
  }

  lemma NoGap(rows: map<int, Event>, after: int, through: int, batch: seq<(int, Event)>, i: nat)
    requires IsBatch(rows, after, through, batch) && i < |batch|
    ensures Before(batch, after, i) < batch[i].0 <= through && batch[i].0 in rows && rows[batch[i].0] == batch[i].1
    ensures batch[i].0 != Before(batch, after, i) + 1 ==> Before(batch, after, i) + 1 !in rows
  {
  }

  lemma EmptyBatch(rows: map<int, Event>, after: int, through: int, batch: seq<(int, Event)>)
    requires IsBatch(rows, after, through, batch) && batch == [] && after < through
    ensures after + 1 !in rows
  {
  }

  lemma Missing(h: Hashing, c: Chain, rows: map<int, Event>, checked: nat, previousHash: string)
    requires SameUpTo(c, rows) && Progress(h, c, checked, previousHash, checked + 1, None)
    requires checked + 1 <= c.last && checked + 1 !in rows
    ensures Progress(h, c, checked, previousHash, checked + 1, Some(checked + 1))
  {
    hide EventHash;
  }

  /** The loop's test on one event is the link condition of the snapshot. */
  lemma {:induction false} CheckLink(h: Hashing, c: Chain, rows: map<int, Event>, checked: nat, previousHash: string, found: int)
    requires SameUpTo(c, rows) && Progress(h, c, checked, previousHash, checked + 1, None)
    requires checked + 1 <= found <= c.last && found in rows
    requires found != checked + 1 ==> checked + 1 !in rows
    ensures var event := rows[found];
      if || found != checked + 1 || event.previousHash != previousHash
         || event.eventHash != EventHash(h, checked + 1, previousHash, event.input)
      then Progress(h, c, checked, previousHash, checked + 1, Some(checked + 1))
      else Progress(h, c, checked + 1, event.eventHash, checked + 2, None)
  {
    hide EventHash;
  }

  lemma Concludes(h: Hashing, c: Chain, r: Receipt, previousHash: string, expected: int)
    requires r.lastSequence == c.last && r.headHash == c.head
    requires r.valid == r.brokenAtSequence.None? && r.firstSequence == if c.last == 0 then None else Some(1)
    requires || (r.brokenAtSequence.Some? && Progress(h, c, r.checkedEvents, previousHash, expected, r.brokenAtSequence))
             || (&& Progress(h, c, r.checkedEvents, previousHash, expected, None) && expected > c.last
                 && r.brokenAtSequence == if r.checkedEvents != c.last || previousHash != c.head then Some(expected) else None)
    ensures Verdict(h, c, r)
  {
    hide LinkOk;
    if expected <= c.last { BrokenLinkInvalidates(h, c, r.checkedEvents); }
  }

  lemma BrokenLinkInvalidates(h: Hashing, c: Chain, checked: nat)
    requires checked < c.last && !LinkOk(h, c.rows, checked + 1)
    ensures !ValidChain(h, c)
  {
    hide LinkOk;
    assert 1 <= checked + 1 <= c.last;
  }

  /* ---- What a receipt pins down ---- */

  /** What was hashed determines the event: the JSON text of the nine fields is injective. */
  ghost predicate SameInput(a: Input, b: Input) {
    && a.actorId == b.actorId && a.action == b.action && a.targetType == b.targetType && a.targetId == b.targetId
    && a.createdAt == b.createdAt && Equivalent(a.detail, b.detail)
  }

  ghost predicate SameEvent(a: Event, b: Event) {
    a.previousHash == b.previousHash && a.eventHash == b.eventHash && SameInput(a.input, b.input)
  }

  /** Two different texts with one hash. */
  ghost predicate Collision(h: Hashing, x: string, y: string) {
    x != y && h.sha(x) == h.sha(y)
  }

  ghost predicate ObjectDetails(rows: map<int, Event>) {
    forall n | n in rows :: rows[n].input.detail.Obj? && DistinctKeys(rows[n].input.detail)
  }

  lemma EventKeysDistinct()
    ensures Distinct(EVENT_KEYS)
  {
    assert forall i, j | 0 <= i < j < |EVENT_KEYS| :: |EVENT_KEYS[i]| != |EVENT_KEYS[j]| || EVENT_KEYS[i][0] != EVENT_KEYS[j][0];
  }

  lemma SameTextSameEvent(h: Hashing, m: int, p: string, a: Input, n: int, q: string, b: Input)
    requires HashedText(h, m, p, a) == HashedText(h, n, q, b)
    requires a.detail.Obj? && b.detail.Obj? && DistinctKeys(a.detail) && DistinctKeys(b.detail)
    ensures m == n && p == q && SameInput(a, b)
  {
    hide Record, Text;
    EventKeysDistinct();
    var vs, ws := EventValues(m, p, a), EventValues(n, q, b);
    var keys := EVENT_KEYS;
    assert |keys| == 9;
    hide EVENT_KEYS;
    RecordDistinct(keys, vs);
    RecordDistinct(keys, ws);
    SameTextSameValue(h.le, Obj(Record(keys, vs)), Obj(Record(keys, ws)));
    forall i: nat | i < 9 ensures Equivalent(vs[i], ws[i]) { EquivalentRecords(keys, vs, ws, i); }
    assert Equivalent(vs[1], ws[1]) && Equivalent(vs[2], ws[2]) && Equivalent(vs[3], ws[3]) && Equivalent(vs[4], ws[4]);
    assert Equivalent(vs[5], ws[5]) && Equivalent(vs[6], ws[6]) && Equivalent(vs[7], ws[7]) && Equivalent(vs[8], ws[8]);
  }

  /** Two intact histories whose n-th events carry one hash agree on their first n events, or hold a
      collision of the hash. */
  lemma {:induction false} SharedHashSharedPast(h: Hashing, a: map<int, Event>, b: map<int, Event>, n: nat)
    returns (collision: Option<(string, string)>)
    requires Intact(h, a, n) && Intact(h, b, n) && ObjectDetails(a) && ObjectDetails(b)
    requires HashAt(a, n) == HashAt(b, n)
    ensures match collision
      case Some((x, y)) => Collision(h, x, y)
      case None => forall k | 1 <= k <= n :: k in a && k in b && SameEvent(a[k], b[k])
  {
    hide HashedText, SameInput;
    collision := None;
    if n > 0 {
      assert LinkOk(h, a, n) && LinkOk(h, b, n);
      var p, q := HashAt(a, n - 1), HashAt(b, n - 1);
      var x, y := HashedText(h, n, p, a[n].input), HashedText(h, n, q, b[n].input);
      if x != y {
        collision := Some((x, y));
      } else {
        SameTextSameEvent(h, n, p, a[n].input, n, q, b[n].input);
        collision := SharedHashSharedPast(h, a, b, n - 1);
      }
    }
  }

  /** Two tables that both verify against one (lastSequence, headHash) hold the same history. */
  lemma ReceiptPinsHistory(h: Hashing, c: Chain, d: Chain, r: Receipt, q: Receipt)
    returns (collision: Option<(string, string)>)
    requires Verdict(h, c, r) && Verdict(h, d, q) && r.valid && q.valid
    requires r.lastSequence == q.lastSequence && r.headHash == q.headHash
    requires ObjectDetails(c.rows) && ObjectDetails(d.rows)
    ensures match collision
      case Some((x, y)) => Collision(h, x, y)
      case None => forall k | 1 <= k <= r.lastSequence :: k in c.rows && k in d.rows && SameEvent(c.rows[k], d.rows[k])
  {
    hide LinkOk;
    collision := SharedHashSharedPast(h, c.rows, d.rows, c.last);
  }

  /** A longer history that verifies, and whose n-th event carries an earlier receipt's head, extends
      the history that receipt was given for. */
  lemma LongerHistoryExtends(h: Hashing, c: Chain, d: Chain, r: Receipt, q: Receipt)
    returns (collision: Option<(string, string)>)
    requires Verdict(h, c, r) && Verdict(h, d, q) && r.valid && q.valid && r.lastSequence <= q.lastSequence
    requires HashAt(d.rows, r.lastSequence) == r.headHash
    requires ObjectDetails(c.rows) && ObjectDetails(d.rows)
    ensures match collision
      case Some((x, y)) => Collision(h, x, y)
      case None => forall k | 1 <= k <= r.lastSequence :: k in c.rows && k in d.rows && SameEvent(c.rows[k], d.rows[k])
  {
    hide LinkOk;
    collision := SharedHashSharedPast(h, c.rows, d.rows, c.last);
  }

  /* ---- Details read back from storage ---- */

  /** A JSONB column gives back the same JSON value with its keys in an order of its own, which
      depends on the value alone. */
  ghost predicate Jsonb(column: Json -> Json) {
    && (forall v: Json | v.Obj? && DistinctKeys(v) :: column(v).Obj? && DistinctKeys(column(v)) && Equivalent(v, column(v)))
    && (forall v: Json, w: Json | DistinctKeys(v) && DistinctKeys(w) && Equivalent(v, w) :: column(v) == column(w))
  }

  function Reread(column: Json -> Json, e: Input): Input { e.(detail := column(e.detail)) }

  function RereadChain(column: Json -> Json, c: Chain): Chain {
    c.(rows := map n | n in c.rows :: c.rows[n].(input := Reread(column, c.rows[n].input)))
  }

  lemma DetailDecidesText(h: Hashing, n: int, p: string, a: Input, b: Input)
    requires a.(detail := Null) == b.(detail := Null) && a.detail.Obj? && b.detail.Obj?
    requires DistinctKeys(a.detail) && DistinctKeys(b.detail)
    ensures HashedText(h, n, p, a) == HashedText(h, n, p, b) <==> Text(h.le, a.detail) == Text(h.le, b.detail)
  {
    var vs, ws, keys := EventValues(n, p, a), EventValues(n, p, b), EVENT_KEYS;
    EventKeysDistinct();
    assert |keys| == 9 && vs[7] == a.detail && ws[7] == b.detail;
    assert forall i | 0 <= i < 9 :: DistinctKeys(vs[i]) && DistinctKeys(ws[i]);
    assert forall i | 0 <= i < 9 && i != 7 :: vs[i] == ws[i];
    hide EVENT_KEYS, EventValues, Distinct;
    RecordDistinct(keys, vs);
    RecordDistinct(keys, ws);
    TextParses(h.le, a.detail);
    TextParses(h.le, b.detail);
    TextParses(h.le, Obj(Record(keys, vs)));
    TextParses(h.le, Obj(Record(keys, ws)));
    CanonicalRecordGet(h.le, keys, vs, 7);
    CanonicalRecordGet(h.le, keys, ws, 7);
    assert Canonical(h.le, Obj(Record(keys, vs))) == Obj(CanonicalFields(h.le, Record(keys, vs)));
    assert Canonical(h.le, Obj(Record(keys, ws))) == Obj(CanonicalFields(h.le, Record(keys, ws)));
    hide Record, Get, Canonical, CanonicalFields, Write, Parse;
    if Canonical(h.le, a.detail) == Canonical(h.le, b.detail) { RecordCanonical(h.le, keys, vs, ws); }
  }

  /** What is hashed survives storage exactly when, at every depth of the detail, tied keys come in the
      order the column gives them. */
  lemma StoredDetailKeepsTextIff(h: Hashing, column: Json -> Json, n: int, p: string, e: Input)
    requires TotalPreorder(h.le) && Jsonb(column) && e.detail.Obj? && DistinctKeys(e.detail)
    ensures HashedText(h, n, p, Reread(column, e)) == HashedText(h, n, p, e) <==> SameTies(h.le, e.detail, column(e.detail))
  {
    assert DistinctKeys(column(e.detail)) && Equivalent(e.detail, column(e.detail));
    hide HashedText, Text, SameTies;
    SameTextIff(h.le, e.detail, column(e.detail));
    DetailDecidesText(h, n, p, e, Reread(column, e));
  }

  lemma StoredDetailKeepsHash(h: Hashing, column: Json -> Json, n: int, p: string, e: Input)
    requires TotalPreorder(h.le) && Jsonb(column) && e.detail.Obj? && DistinctKeys(e.detail) && Untied(h.le, e.detail)
    ensures EventHash(h, n, p, Reread(column, e)) == EventHash(h, n, p, e)
  {
    assert Equivalent(e.detail, column(e.detail));
    hide HashedText, Untied, SameTies, Equivalent;
    UntiedSameTies(h.le, e.detail, column(e.detail));
    StoredDetailKeepsTextIff(h, column, n, p, e);
  }

  lemma RereadLink(h: Hashing, column: Json -> Json, c: Chain, n: nat) returns (collision: Option<(string, string)>)
    requires TotalPreorder(h.le) && Jsonb(column) && ObjectDetails(c.rows) && n > 0 && LinkOk(h, c.rows, n)
    ensures match collision
      case Some((x, y)) => Collision(h, x, y)
      case None =>
        LinkOk(h, RereadChain(column, c).rows, n) <==> SameTies(h.le, c.rows[n].input.detail, column(c.rows[n].input.detail))
  {
    hide HashedText, SameTies, Jsonb, DistinctKeys;
    var e, p := c.rows[n].input, HashAt(c.rows, n - 1);
    StoredDetailKeepsTextIff(h, column, n, p, e);
    var x, y := HashedText(h, n, p, Reread(column, e)), HashedText(h, n, p, e);
    collision := if x != y && h.sha(x) == h.sha(y) then Some((x, y)) else None;
    assert HashAt(RereadChain(column, c).rows, n - 1) == p;
  }

  ghost predicate TiesKept(h: Hashing, column: Json -> Json, c: Chain, n: nat) {
    forall k | 1 <= k <= n && k in c.rows :: SameTies(h.le, c.rows[k].input.detail, column(c.rows[k].input.detail))
  }

  lemma {:induction false} RereadIntact(h: Hashing, column: Json -> Json, c: Chain, n: nat)
    returns (collision: Option<(string, string)>)
    requires TotalPreorder(h.le) && Jsonb(column) && ObjectDetails(c.rows) && Intact(h, c.rows, n)
    ensures match collision
      case Some((x, y)) => Collision(h, x, y)
      case None => Intact(h, RereadChain(column, c).rows, n) <==> TiesKept(h, column, c, n)
  {
    hide LinkOk, Jsonb, SameTies, ObjectDetails, RereadChain, Collision;
    collision := None;
    if n > 0 {
      collision := RereadIntact(h, column, c, n - 1);
      if collision.None? {
        assert LinkOk(h, c.rows, n);
        collision := RereadLink(h, column, c, n);
        assert n in c.rows by { LinkIsRow(h, c.rows, n); }
      }
    }
  }

  lemma LinkIsRow(h: Hashing, rows: map<int, Event>, n: nat)
    requires n > 0 && LinkOk(h, rows, n)
    ensures n in rows
  {
    hide EventHash;
  }

  /** A valid chain, read back from storage, still verifies exactly when every detail has its tied keys
      in the column's order, unless two texts share a hash. */
  lemma RereadChainVerifiesIff(h: Hashing, column: Json -> Json, c: Chain) returns (collision: Option<(string, string)>)
    requires TotalPreorder(h.le) && Jsonb(column) && ObjectDetails(c.rows) && ValidChain(h, c)
    ensures match collision
      case Some((x, y)) => Collision(h, x, y)
      case None => ValidChain(h, RereadChain(column, c)) <==> TiesKept(h, column, c, c.last)
  {
    hide Intact, Jsonb, ObjectDetails, TiesKept, Collision;
    collision := RereadIntact(h, column, c, c.last);
  }

  /* ---- The details the service writes ---- */

  predicate IsLetter(c: char) { 'a' <= c <= 'z' || 'A' <= c <= 'Z' }

  predicate IsName(k: string) {
    |k| > 0 && IsLetter(k[0]) && forall c | c in k :: IsLetter(c) || '0' <= c <= '9' || c == '_'
  }

  /** Object literals: every key, at every depth, is an identifier of the source code. */
  predicate Named(v: Json) {
    match v
    case Arr(items) => NamedItems(items)
    case Obj(fields) => NamedFields(fields)
    case _ => true
  }

  predicate NamedItems(items: Items) { items.Item? ==> Named(items.head) && NamedItems(items.tail) }

  predicate NamedFields(f: Fields) { f.Field? ==> IsName(f.key) && Named(f.value) && NamedFields(f.rest) }

  /** A locale comparison tells ASCII identifiers apart, whatever else it ties. */
  ghost predicate NamesUntied(le: KeyOrder) {
    forall j, k | IsName(j) && IsName(k) :: !Tied(le, j, k)
  }

  lemma {:induction false} NamedGet(f: Fields, k: string)
    requires NamedFields(f) && Get(f, k).Some?
    ensures IsName(k)
  {
    if f.key != k { NamedGet(f.rest, k); }
  }

  lemma {:induction false} NamedUntied(le: KeyOrder, v: Json)
    requires NamesUntied(le) && Named(v)
    ensures Untied(le, v)
    decreases v
  {
    hide NamesUntied, IsName;
    match v
    case Arr(items) => NamedUntiedItems(le, items);
    case Obj(fields) =>
      forall j, k | Get(fields, j).Some? && Get(fields, k).Some? && le(j, k) && le(k, j) ensures j == k {
        NamedGet(fields, j);
        NamedGet(fields, k);
        assert !Tied(le, j, k) by { NamesApart(le, j, k); }
      }
      NamedUntiedFields(le, fields);
    case _ =>
  }

  lemma NamesApart(le: KeyOrder, j: string, k: string)
    requires NamesUntied(le) && IsName(j) && IsName(k)
    ensures !Tied(le, j, k)
  {
  }

  lemma {:induction false} NamedUntiedItems(le: KeyOrder, items: Items)
    requires NamesUntied(le) && NamedItems(items)
    ensures UntiedItems(le, items)
    decreases items
  {
    hide NamesUntied;
    if items.Item? {
      NamedUntied(le, items.head);
      NamedUntiedItems(le, items.tail);
    }
  }

  lemma {:induction false} NamedUntiedFields(le: KeyOrder, f: Fields)
    requires NamesUntied(le) && NamedFields(f)
    ensures UntiedFields(le, f)
    decreases f
  {
    hide NamesUntied, IsName;
    if f.Field? {
      NamedUntied(le, f.value);
      NamedUntiedFields(le, f.rest);
    }
  }

  ghost predicate NamedDetails(rows: map<int, Event>) {
    forall n | n in rows :: Named(rows[n].input.detail)
  }

  /** A valid chain of the events the service writes still verifies after every detail has been stored
      and read back, whatever order the column brings its keys back in. */
  lemma RereadChainVerifies(h: Hashing, column: Json -> Json, c: Chain)
    requires TotalPreorder(h.le) && NamesUntied(h.le) && Jsonb(column)
    requires ObjectDetails(c.rows) && NamedDetails(c.rows) && ValidChain(h, c)
    ensures ValidChain(h, RereadChain(column, c))
  {
    var d := RereadChain(column, c);
    hide EventHash, Jsonb, NamesUntied, Untied, Named, DistinctKeys;
    forall k | 1 <= k <= d.last ensures LinkOk(h, d.rows, k) {
      assert LinkOk(h, c.rows, k);
      NamedUntied(h.le, c.rows[k].input.detail);
      StoredDetailKeepsHash(h, column, k, HashAt(c.rows, k - 1), c.rows[k].input);
    }
    if d.last > 0 { assert LinkOk(h, c.rows, c.last); }
  }

  /** So a chain written only by appends of such events verifies as the table gives it back. */
  lemma StoredAppendsVerify(h: Hashing, column: Json -> Json, es: seq<Input>)
    requires TotalPreorder(h.le) && NamesUntied(h.le) && Jsonb(column) && NonEmptyDigests(h)
    requires forall e | e in es :: e.detail.Obj? && DistinctKeys(e.detail) && Named(e.detail)
    ensures ValidChain(h, RereadChain(column, Appended(h, EMPTY_CHAIN, es)))
  {
    hide Appended, ValidChain, RereadChain, NamesUntied, Jsonb;
    AppendsAreRecorded(h, es);
    RereadChainVerifies(h, column, Appended(h, EMPTY_CHAIN, es));
  }
}

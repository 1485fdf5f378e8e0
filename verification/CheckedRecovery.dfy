/** The evidence worker and the recovery with the check of each object's settings: a refinement of the
    unchecked ones, and the exact condition for a recovery to complete. */
module CheckedRecovery {
  import opened Options
  import opened Envelope
  import opened Witness
  import opened Recovery
  import opened Retention
  import opened LiveRecovery

  datatype Kept = Kept(tables: Tables, objects: Objects)

  function WormOf(c: Config, kept: int -> int): Worm { Worm(c.env.hashing.sha, kept) }

  /** The world without the settings. */
  function Plain(w: Kept): Recovery.World { Recovery.World(w.tables, Bodies(w.objects)) }

  function ContentOf(c: Config, r: WitnessReceipt): Content { Content(Body(c, r), r.receivedAt) }

  /* ---- Storing ---- */

  /** Whether a claimed row gets as far as its last update: the object is there and shows the settings. */
  function Settles(c: Config, s: Worm, p: Policy, w: Kept, id: string): bool {
    match FindReceipt(w.tables.receipts, id)
    case None => false
    case Some(r) =>
      var found := Retention.Put(s, p, w.objects, KeyOf(c, r), ContentOf(c, r)).1;
      EvidenceFor(c, r) in w.tables.evidence && found.Some? && Verified(s, p, found.value, ContentOf(c, r))
  }

  function StoreChecked(c: Config, s: Worm, p: Policy, w: Kept, id: string, finishes: bool): Kept {
    match FindReceipt(w.tables.receipts, id)
    case None => w
    case Some(r) =>
      if EvidenceFor(c, r) !in w.tables.evidence then w
      else
        var objects := Retention.Put(s, p, w.objects, KeyOf(c, r), ContentOf(c, r)).0;
        if Settles(c, s, p, w, id) && finishes then Kept(w.tables.(evidence := MarkStored(w.tables.evidence, id)), objects)
        else w.(objects := objects)
  }

  lemma StoreIsPlain(c: Config, kept: int -> int, p: Policy, w: Kept, id: string, finishes: bool)
    ensures var s := WormOf(c, kept);
      Plain(StoreChecked(c, s, p, w, id, finishes)) == StoreObject(c, Plain(w), id, finishes && Settles(c, s, p, w, id))
  {
    hide KeyOf, Body, EvidenceFor, FindReceipt, MarkStored, Retention.Put, Recovery.Put, Verified;
    var found := FindReceipt(w.tables.receipts, id);
    if found.Some? {
      PutBodies(c, WormOf(c, kept), p, w.objects, KeyOf(c, found.value), ContentOf(c, found.value));
    }
  }

  /* ---- Recovering ---- */

  /** What one listed object needs before its receipt is restored. */
  predicate Passes(c: Config, s: Worm, q: Policy, objects: Objects, key: string, now: int) {
    key in objects &&
    var receipt := ReadObject(c, key, objects[key].body, now);
    receipt.Some? && Verified(s, q, objects[key], Content(objects[key].body, receipt.value.receivedAt))
  }

  function RecoverChecked(c: Config, s: Worm, q: Policy, t: Tables, objects: Objects, keys: seq<string>, now: int): Option<Tables> {
    if |keys| == 0 then Some(t)
    else
      var before :- RecoverChecked(c, s, q, t, objects, keys[..|keys| - 1], now);
      if Passes(c, s, q, objects, keys[|keys| - 1], now)
      then RecoverObject(c, before, Bodies(objects), keys[|keys| - 1], now) else None
  }

  predicate AllPass(c: Config, s: Worm, q: Policy, objects: Objects, keys: seq<string>, now: int) {
    forall k | k in keys :: Passes(c, s, q, objects, k, now)
  }

  lemma {:induction false} CheckedIsPlain(c: Config, s: Worm, q: Policy, t: Tables, objects: Objects, keys: seq<string>, now: int)
    ensures RecoverChecked(c, s, q, t, objects, keys, now)
         == if AllPass(c, s, q, objects, keys, now) then Recover(c, t, Bodies(objects), keys, now) else None
  {
    hide Passes, RecoverObject;
    if |keys| > 0 {
      var before, key := keys[..|keys| - 1], keys[|keys| - 1];
      assert keys == before + [key];
      CheckedIsPlain(c, s, q, t, objects, before, now);
      assert AllPass(c, s, q, objects, keys, now) <==> AllPass(c, s, q, objects, before, now) && Passes(c, s, q, objects, key, now);
    }
  }

  /** The tables a page leaves: those after the objects before the first that fails. */
  function TablesAfter(c: Config, s: Worm, q: Policy, t: Tables, objects: Objects, keys: seq<string>, now: int): Tables {
    match RecoverChecked(c, s, q, t, objects, keys, now)
    case Some(t') => t'
    case None => if |keys| == 0 then t else TablesAfter(c, s, q, t, objects, keys[..|keys| - 1], now)
  }

  function PassingPrefix(c: Config, s: Worm, q: Policy, objects: Objects, keys: seq<string>, now: int): seq<string> {
    if |keys| == 0 || AllPass(c, s, q, objects, keys, now) then keys
    else PassingPrefix(c, s, q, objects, keys[..|keys| - 1], now)
  }

  lemma {:induction false} TablesArePlain(c: Config, s: Worm, q: Policy, t: Tables, objects: Objects, keys: seq<string>, now: int)
    ensures TablesAfter(c, s, q, t, objects, keys, now)
         == PageTables(c, t, Bodies(objects), PassingPrefix(c, s, q, objects, keys, now), now)
  {
    hide Passes, RecoverChecked, Recover;
    CheckedIsPlain(c, s, q, t, objects, keys, now);
    if |keys| > 0 {
      var before := keys[..|keys| - 1];
      TablesArePlain(c, s, q, t, objects, before, now);
      if AllPass(c, s, q, objects, keys, now) {
        assert forall k | k in before :: k in keys;
        assert AllPass(c, s, q, objects, before, now);
      }
    }
  }

  /* ---- Runs with settings that change ---- */

  datatype Step =
    | Accept(receipt: WitnessReceipt)
    | StoreRow(policy: Policy, id: string, finishes: bool)
    | DropTables
    | RecoverPage(policy: Policy, keys: seq<string>, now: int)

  function Next(c: Config, s: Worm, w: Kept, step: Step): Kept {
    match step
    case Accept(r) => w.(tables := Ingest(w.tables, r, Some(EvidenceFor(c, r))).0)
    case StoreRow(p, id, finishes) => StoreChecked(c, s, p, w, id, finishes)
    case DropTables => w.(tables := NO_ROWS)
    case RecoverPage(q, keys, now) => w.(tables := TablesAfter(c, s, q, w.tables, w.objects, keys, now))
  }

  /** The unchecked event that does the same. */
  function Shadow(c: Config, s: Worm, w: Kept, step: Step): Event {
    match step
    case Accept(r) => Submit(r)
    case StoreRow(p, id, finishes) => Work(id, finishes && Settles(c, s, p, w, id))
    case DropTables => Lose
    case RecoverPage(q, keys, now) => Page(PassingPrefix(c, s, q, w.objects, keys, now), now)
  }

  function Run(c: Config, s: Worm, w: Kept, steps: seq<Step>): Kept {
    if |steps| == 0 then w else Next(c, s, Run(c, s, w, steps[..|steps| - 1]), steps[|steps| - 1])
  }

  function Shadows(c: Config, s: Worm, w: Kept, steps: seq<Step>): seq<Event> {
    if |steps| == 0 then []
    else
      var before := steps[..|steps| - 1];
      Shadows(c, s, w, before) + [Shadow(c, s, Run(c, s, w, before), steps[|steps| - 1])]
  }

  lemma NextIsPlain(c: Config, kept: int -> int, w: Kept, step: Step)
    ensures var s := WormOf(c, kept);
      Plain(Next(c, s, w, step)) == LiveRecovery.Next(c, Plain(w), Shadow(c, s, w, step))
  {
    hide StoreChecked, Settles, TablesAfter, PageTables, PassingPrefix, StoreObject, Ingest, EvidenceFor;
    if step.StoreRow? { StoreIsPlain(c, kept, step.policy, w, step.id, step.finishes); }
    if step.RecoverPage? { TablesArePlain(c, WormOf(c, kept), step.policy, w.tables, w.objects, step.keys, step.now); }
  }

  /** Every run with the check is a run without it in which some work is left unfinished and some pages
      end early: whatever holds of all unchecked runs holds of the checked ones. */
  lemma {:induction false} RunIsPlain(c: Config, kept: int -> int, w: Kept, steps: seq<Step>)
    ensures var s := WormOf(c, kept);
      Plain(Run(c, s, w, steps)) == RunFrom(c, Plain(w), Shadows(c, s, w, steps))
  {
    hide Next, LiveRecovery.Next, Shadow, Plain;
    if |steps| > 0 {
      var s, before := WormOf(c, kept), steps[..|steps| - 1];
      RunIsPlain(c, kept, w, before);
      NextIsPlain(c, kept, Run(c, s, w, before), steps[|steps| - 1]);
      Replaying(c, Plain(w), Shadows(c, s, w, before), Shadow(c, s, Run(c, s, w, before), steps[|steps| - 1]));
    }
  }

  ghost predicate Orderly(c: Config, s: Worm, w: Kept, steps: seq<Step>) {
    AllEnabled(c, Plain(w), Shadows(c, s, w, steps))
  }

  predicate NoLossIn(steps: seq<Step>) { forall step | step in steps :: !step.DropTables? }

  lemma {:induction false} NoDropNoLoss(c: Config, s: Worm, w: Kept, steps: seq<Step>)
    requires NoLossIn(steps)
    ensures NoLoss(Shadows(c, s, w, steps))
  {
    hide Settles, PassingPrefix, Run;
    if |steps| > 0 {
      assert steps[|steps| - 1] in steps && forall x | x in steps[..|steps| - 1] :: x in steps;
      NoDropNoLoss(c, s, w, steps[..|steps| - 1]);
    }
  }

  /* ---- The settings an object was written under ---- */

  /** The policy of the first write of a key along a run. */
  function FirstPolicy(c: Config, s: Worm, w: Kept, steps: seq<Step>, key: string): Option<Policy> {
    if |steps| == 0 then None
    else
      var before, last := steps[..|steps| - 1], steps[|steps| - 1];
      var first := FirstPolicy(c, s, w, before, key);
      if first.Some? then first
      else if last.StoreRow? && key !in Run(c, s, w, before).objects && key in Run(c, s, w, steps).objects then Some(last.policy)
      else None
  }

  /** Every object was written under its first policy, for the receipt it is of. */
  ghost predicate Settled(c: Config, s: Worm, objects: Objects, first: string -> Option<Policy>) {
    forall x | IsObject(c, Bodies(objects), x) ::
      KeyOf(c, x) in objects && first(KeyOf(c, x)).Some? && objects[KeyOf(c, x)] == ObjectUnder(s, first(KeyOf(c, x)).value, ContentOf(c, x))
  }

  lemma StoreWrites(c: Config, s: Worm, p: Policy, w: Kept, id: string, finishes: bool) returns (r: Option<WitnessReceipt>)
    ensures var objects := StoreChecked(c, s, p, w, id, finishes).objects;
      match r
      case None => objects == w.objects
      case Some(r) =>
        && r in w.tables.receipts && KeyOf(c, r) !in w.objects
        && objects == w.objects[KeyOf(c, r) := ObjectUnder(s, p, ContentOf(c, r))]
  {
    hide KeyOf, Body, EvidenceFor, MarkStored, Verified;
    r := FindReceipt(w.tables.receipts, id);
    hide FindReceipt;
    if r.Some? && (EvidenceFor(c, r.value) !in w.tables.evidence || KeyOf(c, r.value) in w.objects) { r := None; }
  }

  lemma StoreKeepsSettled(c: Config, s: Worm, p: Policy, w: Kept, id: string, finishes: bool,
                          first: string -> Option<Policy>, next: string -> Option<Policy>)
    requires Live(c, Plain(w)) && IsoExact(c.env) && Settled(c, s, w.objects, first)
    requires var objects := StoreChecked(c, s, p, w, id, finishes).objects;
      forall k :: next(k) == if first(k).Some? then first(k) else if k !in w.objects && k in objects then Some(p) else None
    requires forall k | first(k).Some? :: k in w.objects
    ensures Settled(c, s, StoreChecked(c, s, p, w, id, finishes).objects, next)
  {
    hide StoreChecked, IsObject, KeyOf, ContentOf, IsoExact, ObjectUnder, Live, FromSource;
    var r := StoreWrites(c, s, p, w, id, finishes);
    var objects := StoreChecked(c, s, p, w, id, finishes).objects;
    if r.Some? { ReceiptFromSource(c, Plain(w), r.value); }
    forall x | IsObject(c, Bodies(objects), x)
      ensures KeyOf(c, x) in objects && next(KeyOf(c, x)).Some?
      ensures KeyOf(c, x) in objects && next(KeyOf(c, x)).Some? ==>
        objects[KeyOf(c, x)] == ObjectUnder(s, next(KeyOf(c, x)).value, ContentOf(c, x))
    {
      ObjectInBucket(c, Bodies(objects), x);
      if KeyOf(c, x) in w.objects {
        OldObject(c, Bodies(w.objects), Bodies(objects), x);
      } else {
        NewIsObjectHere(c, s, p, objects, r.value);
        ObjectUnique(c, Bodies(objects), x, r.value);
      }
    }
  }

  lemma OldObject(c: Config, b: Bucket, b': Bucket, x: WitnessReceipt)
    requires IsObject(c, b', x) && KeyOf(c, x) in b && KeyOf(c, x) in b' && b[KeyOf(c, x)] == b'[KeyOf(c, x)]
    ensures IsObject(c, b, x)
  {
    hide FromSource, KeyOf, Body;
  }

  lemma NewIsObjectHere(c: Config, s: Worm, p: Policy, objects: Objects, r: WitnessReceipt)
    requires FromSource(c, r) && KeyOf(c, r) in objects && objects[KeyOf(c, r)] == ObjectUnder(s, p, ContentOf(c, r))
    ensures IsObject(c, Bodies(objects), r)
  {
    hide FromSource, KeyOf, Body;
    NewIsObject(c, Bodies(objects), r);
  }

  lemma {:induction false} FirstIsThere(c: Config, s: Worm, w: Kept, steps: seq<Step>, key: string)
    requires FirstPolicy(c, s, w, steps, key).Some?
    ensures key in Run(c, s, w, steps).objects
  {
    hide StoreChecked, TablesAfter, Ingest, EvidenceFor;
    var before, last := steps[..|steps| - 1], steps[|steps| - 1];
    if FirstPolicy(c, s, w, before, key).Some? {
      FirstIsThere(c, s, w, before, key);
      if last.StoreRow? { var r := StoreWrites(c, s, last.policy, Run(c, s, w, before), last.id, last.finishes); }
    }
  }

  lemma {:induction false} RunSettled(c: Config, kept: int -> int, steps: seq<Step>)
    requires IsoExact(c.env) && Orderly(c, WormOf(c, kept), EMPTY, steps)
    ensures var s := WormOf(c, kept);
      Settled(c, s, Run(c, s, EMPTY, steps).objects, k => FirstPolicy(c, s, EMPTY, steps, k))
  {
    var s := WormOf(c, kept);
    hide IsoExact, IsObject, KeyOf, ContentOf, ObjectUnder, StoreChecked, TablesAfter, Ingest, EvidenceFor, Live, Enabled;
    if |steps| == 0 {
      NothingStored(c);
    } else {
      var before, last := steps[..|steps| - 1], steps[|steps| - 1];
      var w := Run(c, s, EMPTY, before);
      assert Orderly(c, s, EMPTY, before) by { OrderlyStep(c, kept, EMPTY, steps); }
      RunSettled(c, kept, before);
      var first, next := k => FirstPolicy(c, s, EMPTY, before, k), k => FirstPolicy(c, s, EMPTY, steps, k);
      if last.StoreRow? {
        RunLive(c, kept, before);
        forall k | first(k).Some? ensures k in w.objects { FirstIsThere(c, s, EMPTY, before, k); }
        StoreKeepsSettled(c, s, last.policy, w, last.id, last.finishes, first, next);
      } else {
        assert Run(c, s, EMPTY, steps).objects == w.objects;
        assert forall k :: next(k) == first(k);
      }
    }
  }

  const EMPTY: Kept := Kept(NO_ROWS, map[])

  lemma NothingStored(c: Config)
    ensures forall x :: !IsObject(c, Bodies(map[]), x)
  {
    hide FromSource, KeyOf, Body;
  }

  lemma OrderlyStep(c: Config, kept: int -> int, w: Kept, steps: seq<Step>)
    requires |steps| > 0
    ensures var (s, before) := (WormOf(c, kept), steps[..|steps| - 1]);
      Orderly(c, s, w, steps) <==>
        Orderly(c, s, w, before) && Enabled(c, Plain(Run(c, s, w, before)), Shadow(c, s, Run(c, s, w, before), steps[|steps| - 1]))
  {
    hide Shadow, Run, Enabled, RunFrom, Plain;
    var s, before := WormOf(c, kept), steps[..|steps| - 1];
    var evs := Shadows(c, s, w, steps);
    assert evs[..|evs| - 1] == Shadows(c, s, w, before);
    RunIsPlain(c, kept, w, before);
  }

  lemma {:induction false} Onward(c: Config, s: Worm, w: Kept, a: seq<Step>, b: seq<Step>)
    ensures Run(c, s, w, a + b) == Run(c, s, Run(c, s, w, a), b)
  {
    hide Next;
    if |b| == 0 {
      assert a + b == a;
    } else {
      assert (a + b)[..|a + b| - 1] == a + b[..|b| - 1];
      Onward(c, s, w, a, b[..|b| - 1]);
    }
  }

  lemma {:induction false} OrderlyOnward(c: Config, kept: int -> int, w: Kept, a: seq<Step>, b: seq<Step>)
    requires Orderly(c, WormOf(c, kept), w, a + b)
    ensures var s := WormOf(c, kept); Orderly(c, s, w, a) && Orderly(c, s, Run(c, s, w, a), b)
  {
    hide Orderly, Enabled, Run, Shadow, Plain;
    var s := WormOf(c, kept);
    if |b| == 0 {
      assert a + b == a;
      NoStepsOrderly(c, s, Run(c, s, w, a));
    } else {
      var before := b[..|b| - 1];
      assert (a + b)[..|a + b| - 1] == a + before;
      OrderlyStep(c, kept, w, a + b);
      OrderlyOnward(c, kept, w, a, before);
      Onward(c, s, w, a, before);
      OrderlyStep(c, kept, Run(c, s, w, a), b);
    }
  }

  lemma NoStepsOrderly(c: Config, s: Worm, w: Kept)
    ensures Orderly(c, s, w, [])
  {
  }

  lemma RunLive(c: Config, kept: int -> int, steps: seq<Step>)
    requires IsoExact(c.env) && Orderly(c, WormOf(c, kept), EMPTY, steps)
    ensures Live(c, Plain(Run(c, WormOf(c, kept), EMPTY, steps)))
  {
    hide IsoExact, Live, Run, RunFrom, Shadows, AllEnabled;
    RunIsPlain(c, kept, EMPTY, steps);
    assert Plain(EMPTY) == EMPTY_WORLD;
    EmptyLive(c);
    RunsStayLive(c, EMPTY_WORLD, Shadows(c, WormOf(c, kept), EMPTY, steps));
  }

  /* ---- When a recovery with the check completes ---- */

  /** A genuine object passes exactly when the policy it was first written under meets today's. */
  lemma PassesIff(c: Config, kept: int -> int, q: Policy, objects: Objects, first: string -> Option<Policy>, x: WitnessReceipt, now: int)
    requires IsoExact(c.env) && KeepsSeconds(WormOf(c, kept)) && Settled(c, WormOf(c, kept), objects, first)
    requires IsObject(c, Bodies(objects), x) && x.receivedAt <= now
    ensures KeyOf(c, x) in objects && first(KeyOf(c, x)).Some?
    ensures Passes(c, WormOf(c, kept), q, objects, KeyOf(c, x), now) <==> Meets(q, first(KeyOf(c, x)).value)
  {
    ObjectInBucket(c, Bodies(objects), x);
    var s, key := WormOf(c, kept), KeyOf(c, x);
    assert FromSource(c, x) && objects[key].body == Body(c, x);
    hide IsObject, IsoExact, KeepsSeconds, FromSource, KeyOf, Body, ReadObject, Satisfies, Meets;
    SatisfiesIff(s, first(key).value, q, ContentOf(c, x));
    ObjectReadsBack(c, x, now);
  }

  lemma AllPassIff(c: Config, kept: int -> int, q: Policy, w: Kept, first: string -> Option<Policy>, keys: seq<string>, now: int)
    requires IsoExact(c.env) && KeepsSeconds(WormOf(c, kept)) && Settled(c, WormOf(c, kept), w.objects, first)
    requires ObjectsGenuine(c, Bodies(w.objects)) && ObjectsBy(c, Bodies(w.objects), now) && forall k | k in keys :: k in w.objects
    ensures forall x | Listed(c, Bodies(w.objects), keys, x) :: first(KeyOf(c, x)).Some?
    ensures AllPass(c, WormOf(c, kept), q, w.objects, keys, now) <==>
      forall x | Listed(c, Bodies(w.objects), keys, x) :: Meets(q, first(KeyOf(c, x)).value)
  {
    var s, b := WormOf(c, kept), Bodies(w.objects);
    hide IsoExact, KeepsSeconds, Settled, ObjectsGenuine, ObjectsBy, IsObject, KeyOf, Passes, Meets;
    forall x | Listed(c, b, keys, x)
      ensures first(KeyOf(c, x)).Some?
      ensures Passes(c, s, q, w.objects, KeyOf(c, x), now) <==> Meets(q, first(KeyOf(c, x)).value)
    {
      ObjectTimely(c, b, x, now);
      PassesIff(c, kept, q, w.objects, first, x, now);
    }
    forall k | k in keys ensures exists x :: Listed(c, b, keys, x) && KeyOf(c, x) == k {
      var x := ObjectAt(c, b, k);
      assert Listed(c, b, keys, x);
    }
  }

  lemma BeforeLoss(c: Config, kept: int -> int, steps: seq<Step>)
    requires IsoExact(c.env) && Orderly(c, WormOf(c, kept), EMPTY, steps) && NoLossIn(steps)
    ensures Backed(c, Plain(Run(c, WormOf(c, kept), EMPTY, steps)))
  {
    hide IsoExact, Run, RunFrom, Shadows, AllEnabled, NoLoss, NoLossIn;
    RunIsPlain(c, kept, EMPTY, steps);
    NoDropNoLoss(c, WormOf(c, kept), EMPTY, steps);
    assert Plain(EMPTY) == EMPTY_WORLD;
    EmptyBacked(c);
    RunsStayBacked(c, EMPTY_WORLD, Shadows(c, WormOf(c, kept), EMPTY, steps));
  }

  lemma EmptyBacked(c: Config)
    ensures Backed(c, EMPTY_WORLD)
  {
  }

  /** What holds after a run that loses its tables once. */
  lemma AroundLoss(c: Config, kept: int -> int, before: seq<Step>, since: seq<Step>)
    requires IsoExact(c.env) && NoLossIn(before) && NoLossIn(since)
    requires Orderly(c, WormOf(c, kept), EMPTY, before + [DropTables] + since)
    ensures var s := WormOf(c, kept);
      var (w0, w) := (Run(c, s, EMPTY, before), Run(c, s, EMPTY, before + [DropTables] + since));
      var evs := Shadows(c, s, Kept(NO_ROWS, w0.objects), since);
      && Backed(c, Plain(w0)) && AllEnabled(c, Lost(Plain(w0)), evs) && NoLoss(evs)
      && Plain(w) == RunFrom(c, Lost(Plain(w0)), evs)
  {
    var s := WormOf(c, kept);
    var w0 := Run(c, s, EMPTY, before);
    var w1 := Kept(NO_ROWS, w0.objects);
    assert Run(c, s, EMPTY, before + [DropTables]) == w1 by { assert (before + [DropTables])[..|before|] == before; }
    assert Lost(Plain(w0)) == Plain(w1);
    hide IsoExact, NoLossIn, Run, Backed, RunFrom, Shadows, AllEnabled, NoLoss, Plain;
    Onward(c, s, EMPTY, before + [DropTables], since);
    OrderlyOnward(c, kept, EMPTY, before + [DropTables], since);
    OrderlyOnward(c, kept, EMPTY, before, [DropTables]);
    BeforeLoss(c, kept, before);
    RunIsPlain(c, kept, w1, since);
    NoDropNoLoss(c, s, w1, since);
  }

  /** Nothing accepted since the loss is in the way, and every listed object meets today's settings. */
  ghost predicate CanComplete(c: Config, past: Tables, w: Kept, first: string -> Option<Policy>, q: Policy, keys: seq<string>) {
    && Unobstructed(c, past, w, keys)
    && forall x | Listed(c, Bodies(w.objects), keys, x) :: first(KeyOf(c, x)).Some? && Meets(q, first(KeyOf(c, x)).value)
  }

  /** No receipt accepted since the loss is in the way of a listed object that is not back. */
  ghost predicate Unobstructed(c: Config, past: Tables, w: Kept, keys: seq<string>) {
    !exists x, y :: NewcomerInTheWay(c, past, Plain(w), keys, x, y)
  }

  lemma PlainCompletesIff(c: Config, past: Recovery.World, evs: seq<Event>, w: Kept, keys: seq<string>, now: int)
    requires IsoExact(c.env) && Backed(c, past) && AllEnabled(c, Lost(past), evs) && NoLoss(evs)
    requires Plain(w) == RunFrom(c, Lost(past), evs) && Enabled(c, Plain(w), Page(keys, now)) && forall k | k in keys :: k in w.objects
    ensures || Collides(c, w.tables, Bodies(w.objects), keys)
            || (Recover(c, w.tables, Bodies(w.objects), keys, now).Some? <==> Unobstructed(c, past.tables, w, keys))
  {
    hide IsoExact, Backed, AllEnabled, RunFrom, Enabled, Collides, NewcomerInTheWay, NoLoss, Recover;
    assert forall k | k in keys :: k in Plain(w).bucket;
    RecoveryCompletesIff(c, past, evs, keys, now);
  }

  lemma PageFacts(c: Config, w: Kept, keys: seq<string>, now: int)
    requires Live(c, Plain(w)) && Enabled(c, Plain(w), Page(keys, now))
    ensures ObjectsGenuine(c, Bodies(w.objects)) && ObjectsBy(c, Bodies(w.objects), now)
  {
    hide TablesOk, ObjectsGenuine, ObjectsBy;
  }

  lemma CompletesIff(c: Config, kept: int -> int, past: Recovery.World, evs: seq<Event>, w: Kept, first: string -> Option<Policy>,
                     q: Policy, keys: seq<string>, now: int)
    requires IsoExact(c.env) && KeepsSeconds(WormOf(c, kept)) && Settled(c, WormOf(c, kept), w.objects, first)
    requires Backed(c, past) && AllEnabled(c, Lost(past), evs) && NoLoss(evs) && Plain(w) == RunFrom(c, Lost(past), evs)
    requires Live(c, Plain(w)) && Enabled(c, Plain(w), Page(keys, now)) && forall k | k in keys :: k in w.objects
    ensures || Collides(c, w.tables, Bodies(w.objects), keys)
            || (RecoverChecked(c, WormOf(c, kept), q, w.tables, w.objects, keys, now).Some?
                <==> CanComplete(c, past.tables, w, first, q, keys))
  {
    hide IsoExact, KeepsSeconds, Backed, AllEnabled, RunFrom, Enabled, Collides, Unobstructed, Meets, Listed, Live;
    hide NoLoss, ObjectsBy, Settled, Recover, RecoverChecked, AllPass, ObjectsGenuine, Bodies, Plain, Lost;
    PageFacts(c, w, keys, now);
    PlainCompletesIff(c, past, evs, w, keys, now);
    AllPassIff(c, kept, q, w, first, keys, now);
    CheckedIsPlain(c, WormOf(c, kept), q, w.tables, w.objects, keys, now);
  }

  /** From an empty witness, through one loss of the tables and changing settings: a recovery of any
      listed objects completes exactly when no receipt accepted since the loss is in the way of one that
      is not back yet, and each was first written under settings that meet today's: the same encryption
      and lock mode and no shorter a retention. The exception is two objects with one digest. */
  lemma CheckedRecoveryCompletesIff(c: Config, kept: int -> int, before: seq<Step>, since: seq<Step>, q: Policy, keys: seq<string>, now: int)
    requires IsoExact(c.env) && KeepsSeconds(WormOf(c, kept)) && NoLossIn(before) && NoLossIn(since)
    requires Orderly(c, WormOf(c, kept), EMPTY, before + [DropTables] + since)
    requires var w := Run(c, WormOf(c, kept), EMPTY, before + [DropTables] + since);
      Enabled(c, Plain(w), Page(keys, now)) && forall k | k in keys :: k in w.objects
    ensures var (s, steps) := (WormOf(c, kept), before + [DropTables] + since);
      var (past, w) := (Run(c, s, EMPTY, before).tables, Run(c, s, EMPTY, steps));
      || Collides(c, w.tables, Bodies(w.objects), keys)
      || (RecoverChecked(c, s, q, w.tables, w.objects, keys, now).Some?
          <==> CanComplete(c, past, w, k => FirstPolicy(c, s, EMPTY, steps, k), q, keys))
  {
    var s, steps := WormOf(c, kept), before + [DropTables] + since;
    AroundLoss(c, kept, before, since);
    var w0, w := Run(c, s, EMPTY, before), Run(c, s, EMPTY, steps);
    assert Plain(w0).tables == w0.tables;
    hide IsoExact, KeepsSeconds, Orderly, Run, Backed, AllEnabled, RunFrom, Enabled, Collides, CanComplete, Live, Settled;
    hide Plain, Shadows, NoLoss, NoLossIn, RecoverChecked, FirstPolicy, WormOf;
    RunLive(c, kept, steps);
    RunSettled(c, kept, steps);
    CompletesIff(c, kept, Plain(w0), Shadows(c, s, Kept(NO_ROWS, w0.objects), since), w, k => FirstPolicy(c, s, EMPTY, steps, k), q, keys, now);
  }

  /* ---- What storing does ---- */

  /** The object now at a receipt's key: the one that was there, or a new one under these settings. */
  function ObjectThen(c: Config, s: Worm, p: Policy, objects: Objects, r: WitnessReceipt): Object {
    if KeyOf(c, r) in objects then objects[KeyOf(c, r)] else ObjectUnder(s, p, ContentOf(c, r))
  }

  /** An unstored row of good tables is its receipt's. */
  lemma UnstoredRow(c: Config, w: Kept, r: WitnessReceipt, e: Evidence)
    requires Live(c, Plain(w)) && r in w.tables.receipts && e in w.tables.evidence && e.receiptId == r.id && !e.stored
    ensures e == EvidenceFor(c, r) && FindReceipt(w.tables.receipts, r.id) == Some(r)
  {
    assert Vouched(c, w.tables.receipts, e) && Sound(w.tables) by { hide Vouched, Sound, Covered, ObjectsGenuine, FromSource; }
    hide Live, Vouched, EvidenceFor, Sound;
    var y := Voucher(c, w.tables.receipts, e);
    RowBelongs(c, e, y);
    SameIdSameReceipt(w.tables, y, r);
    SameIdSameReceipt(w.tables, FindReceipt(w.tables.receipts, r.id).value, r);
  }

  /** Working on an unstored row of good tables leaves its receipt's object in the store, or the one that
      already was at its key, and nothing else changes there. The row is marked, and only it, exactly when
      the worker finishes and that object has the receipt's digest and size and shows the settings. */
  lemma StoringIff(c: Config, kept: int -> int, p: Policy, w: Kept, r: WitnessReceipt, e: Evidence, finishes: bool)
    requires Live(c, Plain(w)) && r in w.tables.receipts && e in w.tables.evidence && e.receiptId == r.id && !e.stored
    ensures var s := WormOf(c, kept);
      var (after, o) := (StoreChecked(c, s, p, w, r.id, finishes), ObjectThen(c, s, p, w.objects, r));
      var marked := && finishes && c.env.hashing.sha(o.body) == c.env.hashing.sha(Body(c, r)) && |o.body| == |Body(c, r)|
                    && o.encryption == p.encryption && o.lockMode == p.lockMode
                    && o.retainUntil >= r.receivedAt + p.retentionDays * 86_400_000 - 1000;
      && after.objects == w.objects[KeyOf(c, r) := o]
      && after.tables.receipts == w.tables.receipts && |after.tables.evidence| == |w.tables.evidence|
      && forall i | 0 <= i < |w.tables.evidence| ::
           after.tables.evidence[i] == if marked && w.tables.evidence[i].receiptId == r.id then w.tables.evidence[i].(stored := true) else w.tables.evidence[i]
  {
    hide Live, KeyOf, Body, EvidenceFor, FindReceipt, MarkStored, StoreChecked, ObjectThen, ObjectUnder;
    UnstoredRow(c, w, r, e);
    StoresObject(c, WormOf(c, kept), p, w, r, finishes);
  }

  lemma StoresObject(c: Config, s: Worm, p: Policy, w: Kept, r: WitnessReceipt, finishes: bool)
    requires FindReceipt(w.tables.receipts, r.id) == Some(r) && EvidenceFor(c, r) in w.tables.evidence
    ensures var (after, o) := (StoreChecked(c, s, p, w, r.id, finishes), ObjectThen(c, s, p, w.objects, r));
      && after.objects == w.objects[KeyOf(c, r) := o] && after.tables.receipts == w.tables.receipts
      && after.tables.evidence == if finishes && Verified(s, p, o, ContentOf(c, r)) then MarkStored(w.tables.evidence, r.id) else w.tables.evidence
  {
    hide KeyOf, Body, EvidenceFor, FindReceipt, MarkStored;
    if KeyOf(c, r) in w.objects { assert w.objects == w.objects[KeyOf(c, r) := w.objects[KeyOf(c, r)]]; }
  }

  /** Any other call finds nothing to do. */
  lemma NothingToStore(c: Config, kept: int -> int, p: Policy, w: Kept, id: string, finishes: bool)
    requires forall r | r in w.tables.receipts && r.id == id :: EvidenceFor(c, r) !in w.tables.evidence
    ensures StoreChecked(c, WormOf(c, kept), p, w, id, finishes) == w
  {
    hide EvidenceFor, MarkStored, Retention.Put;
  }
}

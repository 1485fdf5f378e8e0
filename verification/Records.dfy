/** JSON objects with a fixed list of keys, as the code writes object literals. */
module Records {
  import opened Options
  import opened CanonicalJson

  predicate Distinct(keys: seq<string>) {
    forall i, j | 0 <= i < j < |keys| :: keys[i] != keys[j]
  }

  function Record(keys: seq<string>, values: seq<Json>): Fields
    requires |keys| == |values|
  {
    if |keys| == 0 then NoFields else Field(keys[0], values[0], Record(keys[1..], values[1..]))
  }

  lemma {:induction false} RecordHas(keys: seq<string>, values: seq<Json>, k: string)
    requires |keys| == |values|
    ensures Has(Record(keys, values), k) <==> k in keys
  {
    if |keys| > 0 { RecordHas(keys[1..], values[1..], k); }
  }

  lemma {:induction false} RecordGet(keys: seq<string>, values: seq<Json>, i: nat)
    requires |keys| == |values| && Distinct(keys) && i < |keys|
    ensures Get(Record(keys, values), keys[i]) == if values[i].Undefined? then None else Some(values[i])
  {
    if i > 0 { RecordGet(keys[1..], values[1..], i - 1); }
  }

  lemma {:induction false} RecordDistinct(keys: seq<string>, values: seq<Json>)
    requires |keys| == |values| && Distinct(keys) && forall v | v in values :: DistinctKeys(v)
    ensures DistinctInFields(Record(keys, values))
  {
    if |keys| > 0 {
      RecordDistinct(keys[1..], values[1..]);
      RecordHas(keys[1..], values[1..], keys[0]);
    }
  }

  /** Records that are the same JSON value agree field by field. */
  lemma EquivalentRecords(keys: seq<string>, vs: seq<Json>, ws: seq<Json>, i: nat)
    requires |keys| == |vs| == |ws| && Distinct(keys) && i < |keys|
    requires Equivalent(Obj(Record(keys, vs)), Obj(Record(keys, ws)))
    ensures vs[i].Undefined? <==> ws[i].Undefined?
    ensures Equivalent(vs[i], ws[i])
  {
    RecordGet(keys, vs, i);
    RecordGet(keys, ws, i);
    var f, g := Record(keys, vs), Record(keys, ws);
    hide Record;
    assert Get(f, keys[i]).Some? <==> Get(g, keys[i]).Some?;
  }

  predicate Scalar(v: Json) { v.Null? || v.Bool? || v.Num? || v.Str? }

  /** Reading a record's fields from the same JSON value in whatever key order. */
  lemma EquivalentGet(keys: seq<string>, vs: seq<Json>, v: Json, i: nat)
    requires |keys| == |vs| && Distinct(keys) && i < |keys| && !vs[i].Undefined?
    requires Equivalent(Obj(Record(keys, vs)), v)
    ensures v.Obj? && Get(v.fields, keys[i]).Some?
    ensures Equivalent(vs[i], Get(v.fields, keys[i]).value)
    ensures Scalar(vs[i]) ==> Get(v.fields, keys[i]) == Some(vs[i])
  {
    RecordGet(keys, vs, i);
    hide Record;
  }

  /** One list of keys in one order: the canonical form depends only on the canonical values, whatever
      keys the comparison ties. */
  lemma {:induction false} RecordCanonical(le: KeyOrder, keys: seq<string>, vs: seq<Json>, ws: seq<Json>)
    requires |keys| == |vs| == |ws|
    requires forall i | 0 <= i < |keys| :: (vs[i].Undefined? <==> ws[i].Undefined?) && Canonical(le, vs[i]) == Canonical(le, ws[i])
    ensures CanonicalFields(le, Record(keys, vs)) == CanonicalFields(le, Record(keys, ws))
  {
    if |keys| > 0 { RecordCanonical(le, keys[1..], vs[1..], ws[1..]); }
  }

  /** Reading a record's canonical form by key finds each field's canonical value. */
  lemma CanonicalRecordGet(le: KeyOrder, keys: seq<string>, values: seq<Json>, i: nat)
    requires |keys| == |values| && Distinct(keys) && i < |keys| && !values[i].Undefined?
    requires forall v | v in values :: DistinctKeys(v)
    ensures Get(CanonicalFields(le, Record(keys, values)), keys[i]) == Some(Canonical(le, values[i]))
  {
    RecordDistinct(keys, values);
    CanonicalGet(le, Record(keys, values), keys[i]);
    RecordGet(keys, values, i);
  }

  /** Keys of different lengths or first letters are different keys. */
  predicate ToldApart(keys: seq<string>) {
    && (forall i | 0 <= i < |keys| :: keys[i] != "")
    && (forall i, j | 0 <= i < j < |keys| :: |keys[i]| != |keys[j]| || keys[i][0] != keys[j][0])
  }

  lemma ToldApartDistinct(keys: seq<string>)
    requires ToldApart(keys)
    ensures Distinct(keys)
  {
  }
}

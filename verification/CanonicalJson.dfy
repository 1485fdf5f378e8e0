/** Canonical JSON: the text every audit hash, approval digest and signature is taken over.

    `le` stands for the key order the text comes out in: locale comparison, with the runtime's own
    rule that array-index keys come first. Nothing is assumed of it beyond a total preorder, because
    locale comparison may put two different keys in the same place. */
module CanonicalJson {
  import opened Options

  datatype Json =
    | Null
    | Undefined
    | Bool(flag: bool)
    | Num(number: int)
    | Str(chars: string)
    | Arr(items: Items)
    | Obj(fields: Fields)

  datatype Items = NoItems | Item(head: Json, tail: Items)

  datatype Fields = NoFields | Field(key: string, value: Json, rest: Fields)

  type KeyOrder = (string, string) -> bool

  ghost predicate TotalPreorder(le: KeyOrder) {
    && (forall a, b :: le(a, b) || le(b, a))
    && (forall a, b, c :: le(a, b) && le(b, c) ==> le(a, c))
  }

  ghost predicate Antisymmetric(le: KeyOrder) {
    forall a, b :: le(a, b) && le(b, a) ==> a == b
  }

  /* ---- Values ---- */

  predicate Has(f: Fields, k: string) {
    f.Field? && (f.key == k || Has(f.rest, k))
  }

  /** An object keeps one value for a key, at every depth. */
  predicate DistinctKeys(v: Json) {
    match v
    case Arr(items) => DistinctInItems(items)
    case Obj(fields) => DistinctInFields(fields)
    case _ => true
  }

  predicate DistinctInItems(items: Items) {
    items.Item? ==> DistinctKeys(items.head) && DistinctInItems(items.tail)
  }

  predicate DistinctInFields(f: Fields) {
    f.Field? ==> !Has(f.rest, f.key) && DistinctKeys(f.value) && DistinctInFields(f.rest)
  }

  /** Reading a property: an undefined one reads like a missing one. */
  function Get(f: Fields, k: string): (r: Option<Json>)
    ensures r.Some? ==> Has(f, k) && !r.value.Undefined? && (f decreases to r.value)
  {
    match f
    case NoFields => None
    case Field(key, value, rest) =>
      if key == k then (if value.Undefined? then None else Some(value)) else Get(rest, k)
  }

  predicate Nullish(v: Json) { v.Null? || v.Undefined? }

  /** The same JSON value: key order and undefined properties do not matter at any depth, and an
      array shows an undefined item as null. */
  ghost predicate Equivalent(a: Json, b: Json)
    decreases a
  {
    match a
    case Arr(items) => b.Arr? && EquivalentItems(items, b.items)
    case Obj(fields) =>
      && b.Obj?
      && (forall k :: Get(fields, k).Some? <==> Get(b.fields, k).Some?)
      && (forall k | Get(fields, k).Some? && Get(b.fields, k).Some? ::
            Equivalent(Get(fields, k).value, Get(b.fields, k).value))
    case _ => if Nullish(a) then Nullish(b) else a == b
  }

  ghost predicate EquivalentItems(a: Items, b: Items)
    decreases a
  {
    match a
    case NoItems => b.NoItems?
    case Item(head, tail) => b.Item? && Equivalent(head, b.head) && EquivalentItems(tail, b.tail)
  }

  /* ---- The canonical form ---- */

  /** One step of a stable sort: before every key it is not above. */
  function Insert(le: KeyOrder, key: string, value: Json, sorted: Fields): Fields {
    match sorted
    case NoFields => Field(key, value, NoFields)
    case Field(k, v, rest) =>
      if le(key, k) then Field(key, value, sorted) else Field(k, v, Insert(le, key, value, rest))
  }

  /** The value the text spells out. */
  function Canonical(le: KeyOrder, v: Json): Json {
    match v
    case Arr(items) => Arr(CanonicalItems(le, items))
    case Obj(fields) => Obj(CanonicalFields(le, fields))
    case Undefined => Null
    case _ => v
  }

  function CanonicalItems(le: KeyOrder, items: Items): Items {
    match items
    case NoItems => NoItems
    case Item(head, tail) => Item(Canonical(le, head), CanonicalItems(le, tail))
  }

  function CanonicalFields(le: KeyOrder, f: Fields): Fields {
    match f
    case NoFields => NoFields
    case Field(key, value, rest) =>
      if value.Undefined? then CanonicalFields(le, rest)
      else Insert(le, key, Canonical(le, value), CanonicalFields(le, rest))
  }

  /* ---- Its text; each function writes its value in front of what follows ---- */

  function Digit(n: int): char
    requires 0 <= n < 10
  {
    "0123456789"[n]
  }

  function Hex(n: int): char
    requires 0 <= n < 16
  {
    "0123456789abcdef"[n]
  }

  function Escape(c: char): (e: string)
    ensures |e| > 0
  {
    if c == '\"' then "\\\""
    else if c == '\\' then "\\\\"
    else if c == 8 as char then "\\b"
    else if c == 9 as char then "\\t"
    else if c == 10 as char then "\\n"
    else if c == 12 as char then "\\f"
    else if c == 13 as char then "\\r"
    else if c < 32 as char then ['\\', 'u', '0', '0', Hex(c as int / 16), Hex(c as int % 16)]
    else [c]
  }

  function WriteNat(n: nat, then_: string): string {
    if n < 10 then [Digit(n)] + then_ else WriteNat(n / 10, [Digit(n % 10)] + then_)
  }

  function WriteChars(s: string, then_: string): string {
    if s == "" then ['\"'] + then_ else Escape(s[0]) + WriteChars(s[1..], then_)
  }

  function Write(v: Json, then_: string): string
    decreases v, 1
  {
    match v
    case Null => "null" + then_
    case Undefined => "null" + then_
    case Bool(flag) => (if flag then "true" else "false") + then_
    case Num(number) => if number < 0 then ['-'] + WriteNat(-number, then_) else WriteNat(number, then_)
    case Str(chars) => ['\"'] + WriteChars(chars, then_)
    case Arr(items) =>
      (match items
       case NoItems => ['['] + ([']'] + then_)
       case Item(head, tail) => ['['] + Write(head, WriteItems(tail, then_)))
    case Obj(fields) =>
      (match fields
       case NoFields => ['{'] + (['}'] + then_)
       case Field(key, value, rest) => ['{'] + WriteField(key, value, WriteFields(rest, then_)))
  }

  function WriteItems(items: Items, then_: string): string
    decreases items
  {
    match items
    case NoItems => [']'] + then_
    case Item(head, tail) => [','] + Write(head, WriteItems(tail, then_))
  }

  function WriteField(key: string, value: Json, then_: string): string
    decreases value, 2
  {
    ['\"'] + WriteChars(key, [':'] + Write(value, then_))
  }

  function WriteFields(f: Fields, then_: string): string
    decreases f
  {
    match f
    case NoFields => ['}'] + then_
    case Field(key, value, rest) => [','] + WriteField(key, value, WriteFields(rest, then_))
  }

  /** The canonical text of a value other than undefined, which has none. */
  function Text(le: KeyOrder, v: Json): string
    requires !v.Undefined?
  {
    Write(Canonical(le, v), "")
  }

  /* ---- Reading text back ---- */

  predicate IsDigit(c: char) { '0' <= c <= '9' }

  function DigitValue(c: char): nat
    requires IsDigit(c)
  {
    c as int - '0' as int
  }

  function ReadNat(t: string, sofar: nat): (r: (nat, string))
    ensures |r.1| <= |t|
  {
    if t != "" && IsDigit(t[0]) then ReadNat(t[1..], 10 * sofar + DigitValue(t[0])) else (sofar, t)
  }

  function UnHex(c: char): int {
    if IsDigit(c) then DigitValue(c)
    else if 'a' <= c <= 'f' then c as int - 'a' as int + 10
    else -1
  }

  /** One character of a string body: the character and what follows it. */
  function ReadChar(t: string): (r: Option<(char, string)>)
    ensures r.Some? ==> |r.value.1| < |t|
  {
    if t == "" || t[0] < 32 as char then None
    else if t[0] != '\\' then Some((t[0], t[1..]))
    else if |t| < 2 then None
    else match t[1]
      case '\"' => Some(('\"', t[2..]))
      case '\\' => Some(('\\', t[2..]))
      case 'b' => Some((8 as char, t[2..]))
      case 't' => Some((9 as char, t[2..]))
      case 'n' => Some((10 as char, t[2..]))
      case 'f' => Some((12 as char, t[2..]))
      case 'r' => Some((13 as char, t[2..]))
      case 'u' =>
        if |t| < 6 || t[2] != '0' || t[3] != '0' || UnHex(t[4]) < 0 || UnHex(t[5]) < 0 then None
        else Some(((16 * UnHex(t[4]) + UnHex(t[5])) as char, t[6..]))
      case _ => None
  }

  function ReadChars(t: string): (r: Option<(string, string)>)
    ensures r.Some? ==> |r.value.1| < |t|
    decreases |t|
  {
    if t == "" then None
    else if t[0] == '\"' then Some(("", t[1..]))
    else match ReadChar(t)
      case None => None
      case Some((c, after)) =>
        match ReadChars(after)
        case None => None
        case Some((s, end)) => Some(([c] + s, end))
  }

  function ReadWord(t: string, word: string, v: Json): (r: Option<(Json, string)>)
    requires word != ""
    ensures r.Some? ==> |r.value.1| < |t|
  {
    if word <= t then Some((v, t[|word|..])) else None
  }

  function Read(t: string): (r: Option<(Json, string)>)
    ensures r.Some? ==> |r.value.1| < |t|
    decreases |t|, 1
  {
    if t == "" then None
    else if t[0] == 'n' then ReadWord(t, "null", Null)
    else if t[0] == 't' then ReadWord(t, "true", Bool(true))
    else if t[0] == 'f' then ReadWord(t, "false", Bool(false))
    else if IsDigit(t[0]) then (var (n, after) := ReadNat(t[1..], DigitValue(t[0])); Some((Num(n), after)))
    else if t[0] == '-' then
      if |t| < 2 || !IsDigit(t[1]) then None
      else (var (n, after) := ReadNat(t[1..], 0); Some((Num(-(n as int)), after)))
    else if t[0] == '\"' then
      (match ReadChars(t[1..])
       case None => None
       case Some((s, after)) => Some((Str(s), after)))
    else if t[0] == '[' then
      if |t| > 1 && t[1] == ']' then Some((Arr(NoItems), t[2..]))
      else
        (match Read(t[1..])
         case None => None
         case Some((v, after)) =>
           match ReadItems(after)
           case None => None
           case Some((items, end)) => Some((Arr(Item(v, items)), end)))
    else if t[0] == '{' then
      if |t| > 1 && t[1] == '}' then Some((Obj(NoFields), t[2..]))
      else
        (match ReadField(t[1..])
         case None => None
         case Some((k, v, after)) =>
           match ReadFields(after)
           case None => None
           case Some((f, end)) => Some((Obj(Field(k, v, f)), end)))
    else None
  }

  function ReadItems(t: string): (r: Option<(Items, string)>)
    ensures r.Some? ==> |r.value.1| < |t|
    decreases |t|, 0
  {
    if t == "" then None
    else if t[0] == ']' then Some((NoItems, t[1..]))
    else if t[0] == ',' then
      (match Read(t[1..])
       case None => None
       case Some((v, after)) =>
         match ReadItems(after)
         case None => None
         case Some((items, end)) => Some((Item(v, items), end)))
    else None
  }

  function ReadField(t: string): (r: Option<(string, Json, string)>)
    ensures r.Some? ==> |r.value.2| < |t|
    decreases |t|, 2
  {
    if t == "" || t[0] != '\"' then None
    else match ReadChars(t[1..])
      case None => None
      case Some((k, after)) =>
        if after == "" || after[0] != ':' then None
        else match Read(after[1..])
          case None => None
          case Some((v, end)) => Some((k, v, end))
  }

  function ReadFields(t: string): (r: Option<(Fields, string)>)
    ensures r.Some? ==> |r.value.1| < |t|
    decreases |t|, 0
  {
    if t == "" then None
    else if t[0] == '}' then Some((NoFields, t[1..]))
    else if t[0] == ',' then
      (match ReadField(t[1..])
       case None => None
       case Some((k, v, after)) =>
         match ReadFields(after)
         case None => None
         case Some((f, end)) => Some((Field(k, v, f), end)))
    else None
  }

  function Parse(t: string): Option<Json> {
    match Read(t)
    case Some((v, "")) => Some(v)
    case _ => None
  }

  /* ---- Reading undoes writing ---- */

  lemma {:induction false} ReadsNat(n: nat, then_: string)
    ensures WriteNat(n, then_) != "" && IsDigit(WriteNat(n, then_)[0])
    ensures ReadNat(WriteNat(n, then_), 0) == ReadNat(then_, n)
  {
    if n < 10 {
      assert ([Digit(n)] + then_)[1..] == then_;
    } else {
      var t := [Digit(n % 10)] + then_;
      ReadsNat(n / 10, t);
      assert t[1..] == then_;
    }
  }

  lemma ReadsHex(n: int)
    requires 0 <= n < 16
    ensures UnHex(Hex(n)) == n
  {
  }

  lemma ReadsControl(c: char, then_: string)
    requires |Escape(c)| == 6
    ensures ReadChar(Escape(c) + then_) == Some((c, then_))
  {
    var e := Escape(c);
    var t := e + then_;
    assert e == ['\\', 'u', '0', '0', Hex(c as int / 16), Hex(c as int % 16)];
    ReadsHex(c as int / 16);
    ReadsHex(c as int % 16);
    hide Hex, UnHex, Escape;
    assert t[..6] == e && t[6..] == then_;
    assert t[0] == e[0] && t[1] == e[1] && t[2] == e[2] && t[3] == e[3] && t[4] == e[4] && t[5] == e[5];
  }

  lemma ReadsChar(c: char, then_: string)
    ensures ReadChar(Escape(c) + then_) == Some((c, then_))
    ensures (Escape(c) + then_)[0] != '\"'
  {
    var e := Escape(c);
    var t := e + then_;
    hide Hex, UnHex;
    assert t[|e|..] == then_ && t[0] == e[0];
    if |e| == 6 {
      ReadsControl(c, then_);
      hide ReadChar;
    } else if |e| == 2 {
      assert t[1] == e[1];
    }
  }

  lemma {:induction false} ReadsChars(s: string, then_: string)
    ensures ReadChars(WriteChars(s, then_)) == Some((s, then_))
  {
    if s == "" {
      assert (['\"'] + then_)[1..] == then_;
    } else {
      ReadsChar(s[0], WriteChars(s[1..], then_));
      hide Escape, ReadChar;
      ReadsChars(s[1..], then_);
      assert [s[0]] + s[1..] == s;
    }
  }

  predicate Plain(v: Json) {
    match v
    case Undefined => false
    case Arr(items) => PlainItems(items)
    case Obj(fields) => PlainFields(fields)
    case _ => true
  }

  predicate PlainItems(items: Items) {
    items.Item? ==> Plain(items.head) && PlainItems(items.tail)
  }

  predicate PlainFields(f: Fields) {
    f.Field? ==> Plain(f.value) && PlainFields(f.rest)
  }

  /** A number ends where something other than a digit follows. */
  predicate Ends(then_: string) { then_ == "" || !IsDigit(then_[0]) }

  lemma {:induction false} ReadsValue(v: Json, then_: string)
    requires Plain(v) && Ends(then_)
    ensures Read(Write(v, then_)) == Some((v, then_))
    ensures Write(v, then_) != "" && Write(v, then_)[0] != ']'
    decreases v, 1
  {
    hide WriteChars, ReadChars, WriteNat, ReadNat, Escape, ReadChar;
    var t := Write(v, then_);
    match v
    case Num(number) =>
      ReadsNumber(number, then_);
    case Str(chars) =>
      ReadsChars(chars, then_);
      assert t[1..] == WriteChars(chars, then_);
    case Arr(items) =>
      if items.NoItems? {
        assert t[2..] == then_;
      } else {
        ReadsItems(items.tail, then_);
        var rest := WriteItems(items.tail, then_);
        ReadsValue(items.head, rest);
        assert t[1..] == Write(items.head, rest);
        hide Write, WriteItems;
      }
    case Obj(fields) =>
      if fields.NoFields? {
        assert t[2..] == then_;
      } else {
        ReadsFields(fields.rest, then_);
        var rest := WriteFields(fields.rest, then_);
        ReadsField(fields.key, fields.value, rest);
        assert t[1..] == WriteField(fields.key, fields.value, rest);
        hide Write, WriteFields, WriteField;
      }
    case _ =>
  }

  lemma ReadsNumber(number: int, then_: string)
    requires Ends(then_)
    ensures Read(Write(Num(number), then_)) == Some((Num(number), then_))
    ensures Write(Num(number), then_) != "" && Write(Num(number), then_)[0] != ']'
  {
    var n := if number < 0 then -number else number;
    ReadsNat(n, then_);
    var t := Write(Num(number), then_);
    hide WriteNat;
    if number < 0 {
      assert t[1..] == WriteNat(n, then_);
    } else {
      assert ReadNat(t, 0) == ReadNat(t[1..], DigitValue(t[0]));
    }
  }

  lemma {:induction false} ReadsItems(items: Items, then_: string)
    requires PlainItems(items)
    ensures ReadItems(WriteItems(items, then_)) == Some((items, then_))
    ensures Ends(WriteItems(items, then_))
    decreases items
  {
    var t := WriteItems(items, then_);
    match items
    case NoItems =>
      assert t[1..] == then_;
    case Item(head, tail) =>
      ReadsItems(tail, then_);
      ReadsValue(head, WriteItems(tail, then_));
      assert t[1..] == Write(head, WriteItems(tail, then_));
      hide Read, Write;
  }

  lemma {:induction false} ReadsField(key: string, value: Json, then_: string)
    requires Plain(value) && Ends(then_)
    ensures ReadField(WriteField(key, value, then_)) == Some((key, value, then_))
    ensures WriteField(key, value, then_) != "" && WriteField(key, value, then_)[0] == '\"'
    decreases value, 2
  {
    hide Read, Write, ReadChars, WriteChars;
    var t := WriteField(key, value, then_);
    var body := Write(value, then_);
    ReadsChars(key, [':'] + body);
    ReadsValue(value, then_);
    assert t[1..] == WriteChars(key, [':'] + body);
    assert ([':'] + body)[1..] == body;
  }

  lemma {:induction false} ReadsFields(f: Fields, then_: string)
    requires PlainFields(f)
    ensures ReadFields(WriteFields(f, then_)) == Some((f, then_))
    ensures Ends(WriteFields(f, then_))
    decreases f
  {
    var t := WriteFields(f, then_);
    match f
    case NoFields =>
      assert t[1..] == then_;
    case Field(key, value, rest) =>
      ReadsFields(rest, then_);
      ReadsField(key, value, WriteFields(rest, then_));
      assert t[1..] == WriteField(key, value, WriteFields(rest, then_));
      hide ReadField, WriteField;
  }

  lemma {:induction false} CanonicalIsPlain(le: KeyOrder, v: Json)
    ensures Plain(Canonical(le, v))
    decreases v
  {
    match v
    case Arr(items) => CanonicalItemsArePlain(le, items);
    case Obj(fields) => CanonicalFieldsArePlain(le, fields);
    case _ =>
  }

  lemma {:induction false} CanonicalItemsArePlain(le: KeyOrder, items: Items)
    ensures PlainItems(CanonicalItems(le, items))
    decreases items
  {
    if items.Item? {
      CanonicalIsPlain(le, items.head);
      CanonicalItemsArePlain(le, items.tail);
    }
  }

  lemma {:induction false} CanonicalFieldsArePlain(le: KeyOrder, f: Fields)
    ensures PlainFields(CanonicalFields(le, f))
    decreases f
  {
    if f.Field? {
      CanonicalIsPlain(le, f.value);
      CanonicalFieldsArePlain(le, f.rest);
      InsertPlain(le, f.key, Canonical(le, f.value), CanonicalFields(le, f.rest));
    }
  }

  lemma {:induction false} InsertPlain(le: KeyOrder, key: string, value: Json, sorted: Fields)
    requires Plain(value) && PlainFields(sorted)
    ensures PlainFields(Insert(le, key, value, sorted))
  {
    if sorted.Field? { InsertPlain(le, key, value, sorted.rest); }
  }

  /** The text parses back to the canonical value, so equal texts spell equal canonical values. */
  lemma TextParses(le: KeyOrder, v: Json)
    requires !v.Undefined?
    ensures Parse(Text(le, v)) == Some(Canonical(le, v))
  {
    hide Canonical, Read, Write, Plain;
    CanonicalIsPlain(le, v);
    ReadsValue(Canonical(le, v), "");
  }

  /* ---- The canonical form keeps every property and nothing else ---- */

  lemma {:induction false} InsertGet(le: KeyOrder, key: string, value: Json, sorted: Fields, k: string)
    requires !Has(sorted, key) && !value.Undefined?
    ensures Get(Insert(le, key, value, sorted), k) == if k == key then Some(value) else Get(sorted, k)
    ensures Has(Insert(le, key, value, sorted), k) <==> k == key || Has(sorted, k)
  {
    if sorted.Field? { InsertGet(le, key, value, sorted.rest, k); }
  }

  lemma {:induction false} CanonicalGet(le: KeyOrder, f: Fields, k: string)
    requires DistinctInFields(f)
    ensures Get(CanonicalFields(le, f), k) == match Get(f, k) { case None => None case Some(v) => Some(Canonical(le, v)) }
    ensures Has(CanonicalFields(le, f), k) <==> Get(f, k).Some?
  {
    if f.Field? {
      CanonicalGet(le, f.rest, k);
      CanonicalGet(le, f.rest, f.key);
      MissingGet(f.rest, f.key);
      if !f.value.Undefined? {
        InsertGet(le, f.key, Canonical(le, f.value), CanonicalFields(le, f.rest), k);
      }
    }
  }

  lemma {:induction false} MissingGet(f: Fields, k: string)
    requires !Has(f, k)
    ensures Get(f, k).None?
  {
    if f.Field? { MissingGet(f.rest, k); }
  }

  lemma {:induction false} GetDistinct(f: Fields, k: string)
    requires DistinctInFields(f) && Get(f, k).Some?
    ensures DistinctKeys(Get(f, k).value)
  {
    if f.key != k { GetDistinct(f.rest, k); }
  }

  /* ---- The canonical form is sorted ---- */

  predicate Below(le: KeyOrder, key: string, f: Fields) {
    f.Field? ==> le(key, f.key) && Below(le, key, f.rest)
  }

  predicate Sorted(le: KeyOrder, f: Fields) {
    f.Field? ==> Below(le, f.key, f.rest) && !Has(f.rest, f.key) && Sorted(le, f.rest)
  }

  lemma {:induction false} BelowHas(le: KeyOrder, key: string, f: Fields, k: string)
    requires Below(le, key, f) && Has(f, k)
    ensures le(key, k)
  {
    if f.key != k { BelowHas(le, key, f.rest, k); }
  }

  lemma {:induction false} BelowTrans(le: KeyOrder, low: string, key: string, f: Fields)
    requires TotalPreorder(le) && le(low, key) && Below(le, key, f)
    ensures Below(le, low, f)
  {
    if f.Field? { BelowTrans(le, low, key, f.rest); }
  }

  lemma {:induction false} InsertBelow(le: KeyOrder, low: string, key: string, value: Json, sorted: Fields)
    requires le(low, key) && Below(le, low, sorted)
    ensures Below(le, low, Insert(le, key, value, sorted))
  {
    if sorted.Field? { InsertBelow(le, low, key, value, sorted.rest); }
  }

  lemma {:induction false} InsertSorted(le: KeyOrder, key: string, value: Json, sorted: Fields)
    requires TotalPreorder(le) && Sorted(le, sorted) && !Has(sorted, key) && !value.Undefined?
    ensures Sorted(le, Insert(le, key, value, sorted))
  {
    if sorted.Field? {
      if le(key, sorted.key) {
        BelowTrans(le, key, sorted.key, sorted.rest);
      } else {
        InsertSorted(le, key, value, sorted.rest);
        InsertBelow(le, sorted.key, key, value, sorted.rest);
        InsertGet(le, key, value, sorted.rest, sorted.key);
      }
    }
  }

  lemma {:induction false} CanonicalSorted(le: KeyOrder, f: Fields)
    requires TotalPreorder(le) && DistinctInFields(f)
    ensures Sorted(le, CanonicalFields(le, f))
  {
    if f.Field? {
      CanonicalSorted(le, f.rest);
      CanonicalGet(le, f.rest, f.key);
      MissingGet(f.rest, f.key);
      if !f.value.Undefined? {
        CanonicalNotUndefined(le, f.value);
        InsertSorted(le, f.key, Canonical(le, f.value), CanonicalFields(le, f.rest));
      }
    }
  }

  lemma CanonicalNotUndefined(le: KeyOrder, v: Json)
    ensures !Canonical(le, v).Undefined?
  {
    match v
    case _ =>
  }

  lemma FirstGet(f: Fields)
    requires PlainFields(f)
    ensures f.Field? ==> Get(f, f.key) == Some(f.value)
    ensures f.NoFields? ==> forall k :: Get(f, k).None?
  {
  }

  /* ---- Ties ---- */

  /** No two different defined properties of the object come out in the same place. */
  ghost predicate UntiedKeys(le: KeyOrder, f: Fields) {
    forall j, k | Get(f, j).Some? && Get(f, k).Some? && le(j, k) && le(k, j) :: j == k
  }

  /** The same for every object of a value, at every depth. */
  ghost predicate Untied(le: KeyOrder, v: Json) {
    match v
    case Arr(items) => UntiedItems(le, items)
    case Obj(fields) => UntiedKeys(le, fields) && UntiedFields(le, fields)
    case _ => true
  }

  ghost predicate UntiedItems(le: KeyOrder, items: Items) {
    items.Item? ==> Untied(le, items.head) && UntiedItems(le, items.tail)
  }

  ghost predicate UntiedFields(le: KeyOrder, f: Fields) {
    f.Field? ==> Untied(le, f.value) && UntiedFields(le, f.rest)
  }

  lemma {:induction false} GetUntied(le: KeyOrder, f: Fields, k: string)
    requires UntiedFields(le, f) && Get(f, k).Some?
    ensures Untied(le, Get(f, k).value)
  {
    if f.key != k { GetUntied(le, f.rest, k); }
  }

  /** Two sorted objects with the same properties list them in the same order. */
  lemma {:induction false} SortedUnique(le: KeyOrder, f: Fields, g: Fields)
    requires UntiedKeys(le, f) && Sorted(le, f) && Sorted(le, g) && PlainFields(f) && PlainFields(g)
    requires forall k :: Get(f, k) == Get(g, k)
    ensures f == g
  {
    SortedSame(le, f, g);
  }

  /* ---- Equal texts are equal values ---- */

  lemma {:induction false} EquivalentCanonical(le: KeyOrder, a: Json, b: Json)
    requires TotalPreorder(le) && Untied(le, a) && DistinctKeys(a) && DistinctKeys(b)
    requires Equivalent(a, b)
    ensures Canonical(le, a) == Canonical(le, b)
  {
    UntiedSameTies(le, a, b);
    SameCanonicalIff(le, a, b);
  }

  lemma {:induction false} UntiedSameTies(le: KeyOrder, a: Json, b: Json)
    requires Untied(le, a) && Equivalent(a, b)
    ensures SameTies(le, a, b)
    decreases a
  {
    match a
    case Arr(items) => UntiedSameTiesItems(le, items, b.items);
    case Obj(fields) =>
      forall k | Get(fields, k).Some? && Get(b.fields, k).Some?
        ensures SameTies(le, Get(fields, k).value, Get(b.fields, k).value)
      {
        GetUntied(le, fields, k);
        UntiedSameTies(le, Get(fields, k).value, Get(b.fields, k).value);
      }
    case _ =>
  }

  lemma {:induction false} UntiedSameTiesItems(le: KeyOrder, a: Items, b: Items)
    requires UntiedItems(le, a) && EquivalentItems(a, b)
    ensures SameTiesItems(le, a, b)
    decreases a
  {
    if a.Item? {
      UntiedSameTies(le, a.head, b.head);
      UntiedSameTiesItems(le, a.tail, b.tail);
    }
  }

  lemma {:induction false} CanonicalEquivalent(le: KeyOrder, a: Json, b: Json)
    requires DistinctKeys(a) && DistinctKeys(b) && Canonical(le, a) == Canonical(le, b)
    ensures Equivalent(a, b)
    decreases a
  {
    match a
    case Arr(items) => CanonicalEquivalentItems(le, items, b.items);
    case Obj(fields) =>
      forall k
        ensures Get(fields, k).Some? <==> Get(b.fields, k).Some?
        ensures Get(fields, k).Some? && Get(b.fields, k).Some? ==>
          Equivalent(Get(fields, k).value, Get(b.fields, k).value)
      {
        CanonicalGet(le, fields, k);
        CanonicalGet(le, b.fields, k);
        if Get(fields, k).Some? {
          GetDistinct(fields, k);
          GetDistinct(b.fields, k);
          CanonicalEquivalent(le, Get(fields, k).value, Get(b.fields, k).value);
        }
      }
    case _ =>
  }

  lemma {:induction false} CanonicalEquivalentItems(le: KeyOrder, a: Items, b: Items)
    requires DistinctInItems(a) && DistinctInItems(b) && CanonicalItems(le, a) == CanonicalItems(le, b)
    ensures EquivalentItems(a, b)
    decreases a
  {
    if a.Item? {
      CanonicalEquivalent(le, a.head, b.head);
      CanonicalEquivalentItems(le, a.tail, b.tail);
    }
  }

  /** Two values have the same text only if they are the same JSON value, whatever the key order. */
  lemma SameTextSameValue(le: KeyOrder, a: Json, b: Json)
    requires DistinctKeys(a) && DistinctKeys(b) && !a.Undefined? && !b.Undefined?
    requires Text(le, a) == Text(le, b)
    ensures Equivalent(a, b)
  {
    TextParses(le, a);
    TextParses(le, b);
    CanonicalEquivalent(le, a, b);
  }

  /** A value without ties has one text, in whatever order its properties come at any depth. */
  lemma SameValueSameText(le: KeyOrder, a: Json, b: Json)
    requires TotalPreorder(le) && Untied(le, a)
    requires DistinctKeys(a) && DistinctKeys(b) && !a.Undefined? && !b.Undefined? && Equivalent(a, b)
    ensures Text(le, a) == Text(le, b)
  {
    hide Canonical, Write, Equivalent, Untied;
    EquivalentCanonical(le, a, b);
  }

  /* ---- A value with ties has a twin with another text ---- */

  lemma {:induction false} Reflexive(v: Json)
    ensures Equivalent(v, v)
    decreases v
  {
    match v
    case Arr(items) => ReflexiveItems(items);
    case Obj(fields) =>
      forall k | Get(fields, k).Some? ensures Equivalent(Get(fields, k).value, Get(fields, k).value) {
        Reflexive(Get(fields, k).value);
      }
    case _ =>
  }

  lemma {:induction false} ReflexiveItems(items: Items)
    ensures EquivalentItems(items, items)
    decreases items
  {
    if items.Item? {
      Reflexive(items.head);
      ReflexiveItems(items.tail);
    }
  }

  /** Of the two keys, `j` is met first. */
  predicate Precedes(f: Fields, j: string, k: string) {
    f.Field? && (if f.key == j then Has(f.rest, k) else f.key != k && Precedes(f.rest, j, k))
  }

  lemma {:induction false} NotBothFirst(f: Fields, j: string, k: string)
    requires j != k && Precedes(f, j, k)
    ensures !Precedes(f, k, j) && Has(f, j) && Has(f, k)
  {
    if f.key != j { NotBothFirst(f.rest, j, k); }
  }

  lemma {:induction false} OneIsFirst(f: Fields, j: string, k: string)
    requires j != k && Has(f, j) && Has(f, k)
    ensures Precedes(f, j, k) || Precedes(f, k, j)
  {
    if f.key != j && f.key != k { OneIsFirst(f.rest, j, k); }
  }

  lemma {:induction false} InsertGoesFirst(le: KeyOrder, j: string, value: Json, sorted: Fields, k: string)
    requires j != k && Has(sorted, k) && !Has(sorted, j) && le(j, k)
    ensures Precedes(Insert(le, j, value, sorted), j, k)
  {
    if !le(j, sorted.key) { InsertGoesFirst(le, j, value, sorted.rest, k); }
  }

  lemma {:induction false} InsertKeepsFirst(le: KeyOrder, x: string, value: Json, sorted: Fields, j: string, k: string)
    requires x != j && x != k && j != k && Precedes(sorted, j, k)
    ensures Precedes(Insert(le, x, value, sorted), j, k)
  {
    if !le(x, sorted.key) {
      if sorted.key == j {
        InsertHas(le, x, value, sorted.rest, k);
      } else {
        InsertKeepsFirst(le, x, value, sorted.rest, j, k);
      }
    }
  }

  lemma {:induction false} InsertHas(le: KeyOrder, x: string, value: Json, sorted: Fields, k: string)
    requires Has(sorted, k)
    ensures Has(Insert(le, x, value, sorted), k)
  {
    if sorted.key != k && !le(x, sorted.key) { InsertHas(le, x, value, sorted.rest, k); }
  }

  /** The sort is stable: tied properties come out in the order they went in. */
  lemma {:induction false} TiesKeepOrder(le: KeyOrder, f: Fields, j: string, k: string)
    requires DistinctInFields(f) && j != k && le(j, k) && Precedes(f, j, k)
    requires Get(f, j).Some? && Get(f, k).Some?
    ensures Precedes(CanonicalFields(le, f), j, k)
  {
    var sorted := CanonicalFields(le, f.rest);
    if f.key == j {
      CanonicalGet(le, f.rest, k);
      CanonicalGet(le, f.rest, j);
      MissingGet(f.rest, j);
      InsertGoesFirst(le, j, Canonical(le, f.value), sorted, k);
    } else {
      TiesKeepOrder(le, f.rest, j, k);
      if !f.value.Undefined? { InsertKeepsFirst(le, f.key, Canonical(le, f.value), sorted, j, k); }
    }
  }

  function Without(f: Fields, k: string): Fields {
    match f
    case NoFields => NoFields
    case Field(key, value, rest) => if key == k then rest else Field(key, value, Without(rest, k))
  }

  lemma {:induction false} WithoutGet(f: Fields, k: string, x: string)
    requires DistinctInFields(f)
    ensures Get(Without(f, k), x) == if x == k then None else Get(f, x)
    ensures Has(Without(f, k), x) <==> Has(f, x) && x != k
  {
    if f.Field? {
      WithoutGet(f.rest, k, x);
      MissingGet(f.rest, f.key);
    }
  }

  lemma {:induction false} WithoutDistinct(f: Fields, k: string)
    requires DistinctInFields(f)
    ensures DistinctInFields(Without(f, k))
  {
    if f.Field? {
      WithoutDistinct(f.rest, k);
      WithoutGet(f.rest, k, f.key);
    }
  }

  /** Moving the later of two tied properties to the front gives the same value another text. */
  lemma TiedTwin(le: KeyOrder, f: Fields, j: string, k: string) returns (g: Fields)
    requires DistinctInFields(f) && j != k && le(j, k) && le(k, j) && Precedes(f, j, k)
    requires Get(f, j).Some? && Get(f, k).Some?
    ensures DistinctInFields(g) && Equivalent(Obj(f), Obj(g)) && CanonicalFields(le, f) != CanonicalFields(le, g)
  {
    g := Field(k, Get(f, k).value, Without(f, k));
    WithoutDistinct(f, k);
    WithoutGet(f, k, k);
    WithoutGet(f, k, j);
    GetDistinct(f, k);
    forall x ensures Get(g, x) == Get(f, x) { WithoutGet(f, k, x); }
    forall x | Get(f, x).Some? ensures Equivalent(Get(f, x).value, Get(f, x).value) { Reflexive(Get(f, x).value); }
    TiesKeepOrder(le, f, j, k);
    TiesKeepOrder(le, g, k, j);
    NotBothFirst(CanonicalFields(le, f), j, k);
  }

  lemma {:induction false} Twin(le: KeyOrder, v: Json) returns (w: Json)
    requires DistinctKeys(v) && !Untied(le, v)
    ensures DistinctKeys(w) && !w.Undefined? && Equivalent(v, w) && Canonical(le, v) != Canonical(le, w)
    decreases v
  {
    if v.Arr? {
      var items := TwinItems(le, v.items);
      w := Arr(items);
    } else {
      var f := v.fields;
      if UntiedKeys(le, f) {
        var g, at := TwinField(le, f);
        w := Obj(g);
        CanonicalGet(le, f, at);
        CanonicalGet(le, g, at);
      } else {
        var j, k :| Get(f, j).Some? && Get(f, k).Some? && le(j, k) && le(k, j) && j != k;
        OneIsFirst(f, j, k);
        var g;
        if Precedes(f, j, k) { g := TiedTwin(le, f, j, k); } else { g := TiedTwin(le, f, k, j); }
        w := Obj(g);
      }
    }
  }

  lemma {:induction false} TwinItems(le: KeyOrder, a: Items) returns (b: Items)
    requires DistinctInItems(a) && !UntiedItems(le, a)
    ensures DistinctInItems(b) && EquivalentItems(a, b) && CanonicalItems(le, a) != CanonicalItems(le, b)
    decreases a
  {
    if Untied(le, a.head) {
      var tail := TwinItems(le, a.tail);
      b := Item(a.head, tail);
      Reflexive(a.head);
    } else {
      var head := Twin(le, a.head);
      b := Item(head, a.tail);
      ReflexiveItems(a.tail);
    }
  }

  /** The twin of an object one of whose values has ties: that value is exchanged for its twin. */
  lemma {:induction false} TwinField(le: KeyOrder, f: Fields) returns (g: Fields, at: string)
    requires DistinctInFields(f) && !UntiedFields(le, f)
    ensures DistinctInFields(g) && forall k :: (Has(g, k) <==> Has(f, k)) && (Get(g, k).Some? <==> Get(f, k).Some?)
    ensures forall k | Get(f, k).Some? && Get(g, k).Some? :: Equivalent(Get(f, k).value, Get(g, k).value)
    ensures Get(f, at).Some? && Get(g, at).Some? && Canonical(le, Get(f, at).value) != Canonical(le, Get(g, at).value)
    decreases f
  {
    forall k | Get(f, k).Some? ensures Equivalent(Get(f, k).value, Get(f, k).value) { Reflexive(Get(f, k).value); }
    if Untied(le, f.value) {
      var rest;
      rest, at := TwinField(le, f.rest);
      g := Field(f.key, f.value, rest);
      MissingGet(f.rest, f.key);
    } else {
      var value := Twin(le, f.value);
      g, at := Field(f.key, value, f.rest), f.key;
    }
  }

  /* ---- Two orders of one value ---- */

  predicate Tied(le: KeyOrder, j: string, k: string) { j != k && le(j, k) && le(k, j) }

  /** Tied properties of the first object come in the same order in the second. */
  ghost predicate TiesAgree(le: KeyOrder, f: Fields, g: Fields) {
    forall j, k | Tied(le, j, k) && Get(f, j).Some? && Get(f, k).Some? && Precedes(f, j, k) :: Precedes(g, j, k)
  }

  /** The same at every depth of two values that differ in key order. */
  ghost predicate SameTies(le: KeyOrder, a: Json, b: Json)
    decreases a
  {
    match a
    case Arr(items) => b.Arr? && SameTiesItems(le, items, b.items)
    case Obj(fields) =>
      && b.Obj? && TiesAgree(le, fields, b.fields)
      && forall k | Get(fields, k).Some? && Get(b.fields, k).Some? ::
           SameTies(le, Get(fields, k).value, Get(b.fields, k).value)
    case _ => true
  }

  ghost predicate SameTiesItems(le: KeyOrder, a: Items, b: Items)
    decreases a
  {
    a.Item? && b.Item? ==> SameTies(le, a.head, b.head) && SameTiesItems(le, a.tail, b.tail)
  }

  /** Sorted objects with the same properties are one list if they agree on the ties. */
  lemma {:induction false} SortedSame(le: KeyOrder, f: Fields, g: Fields)
    requires Sorted(le, f) && Sorted(le, g) && PlainFields(f) && PlainFields(g) && TiesAgree(le, f, g)
    requires forall k :: Get(f, k) == Get(g, k)
    ensures f == g
  {
    FirstGet(f);
    FirstGet(g);
    if f.Field? {
      assert Get(f, f.key) == Get(g, f.key);
      if g.Field? {
        assert Get(f, g.key) == Get(g, g.key);
        if f.key != g.key {
          BelowHas(le, f.key, f.rest, g.key);
          BelowHas(le, g.key, g.rest, f.key);
          assert Tied(le, f.key, g.key) && Precedes(f, f.key, g.key);
        }
        forall k ensures Get(f.rest, k) == Get(g.rest, k) {
          assert Get(f, k) == Get(g, k);
          if k == f.key {
            MissingGet(f.rest, k);
            MissingGet(g.rest, k);
          }
        }
        RestAgrees(le, f, g);
        SortedSame(le, f.rest, g.rest);
      }
    }
  }

  lemma RestAgrees(le: KeyOrder, f: Fields, g: Fields)
    requires f.Field? && g.Field? && f.key == g.key && !Has(f.rest, f.key) && TiesAgree(le, f, g)
    ensures TiesAgree(le, f.rest, g.rest)
  {
    forall j, k | Tied(le, j, k) && Get(f.rest, j).Some? && Get(f.rest, k).Some? && Precedes(f.rest, j, k)
      ensures Precedes(g.rest, j, k)
    {
      assert Get(f, j) == Get(f.rest, j) && Get(f, k) == Get(f.rest, k);
      assert Precedes(f, j, k);
    }
  }

  /** Sorting keeps the ties' order, so the sorted objects agree on it exactly when the objects do. */
  lemma SortedTies(le: KeyOrder, f: Fields, g: Fields)
    requires DistinctInFields(f) && DistinctInFields(g) && forall k :: Get(f, k).Some? <==> Get(g, k).Some?
    ensures TiesAgree(le, CanonicalFields(le, f), CanonicalFields(le, g)) <==> TiesAgree(le, f, g)
  {
    var f', g' := CanonicalFields(le, f), CanonicalFields(le, g);
    forall k ensures Get(f', k).Some? <==> Get(f, k).Some? { CanonicalGet(le, f, k); }
    forall j, k | Tied(le, j, k) && Get(f, j).Some? && Get(f, k).Some?
      ensures (Precedes(f', j, k) <==> Precedes(f, j, k)) && (Precedes(g', j, k) <==> Precedes(g, j, k))
    {
      assert Get(g, j).Some? && Get(g, k).Some?;
      SortedPrecedes(le, f, j, k);
      SortedPrecedes(le, g, j, k);
    }
  }

  lemma SortedPrecedes(le: KeyOrder, f: Fields, j: string, k: string)
    requires DistinctInFields(f) && Tied(le, j, k) && Get(f, j).Some? && Get(f, k).Some?
    ensures Precedes(CanonicalFields(le, f), j, k) <==> Precedes(f, j, k)
  {
    OneIsFirst(f, j, k);
    if Precedes(f, j, k) {
      TiesKeepOrder(le, f, j, k);
    } else {
      TiesKeepOrder(le, f, k, j);
      NotBothFirst(CanonicalFields(le, f), k, j);
    }
  }

  lemma {:induction false} SameCanonicalIff(le: KeyOrder, a: Json, b: Json)
    requires TotalPreorder(le) && DistinctKeys(a) && DistinctKeys(b) && Equivalent(a, b)
    ensures Canonical(le, a) == Canonical(le, b) <==> SameTies(le, a, b)
    decreases a
  {
    match a
    case Arr(items) => SameCanonicalItemsIff(le, items, b.items);
    case Obj(fields) =>
      var f, g := CanonicalFields(le, fields), CanonicalFields(le, b.fields);
      forall k
        ensures Get(f, k).Some? <==> Get(fields, k).Some?
        ensures Get(fields, k).Some? && Get(b.fields, k).Some? ==>
          (Get(f, k) == Get(g, k) <==> SameTies(le, Get(fields, k).value, Get(b.fields, k).value))
      {
        CanonicalGet(le, fields, k);
        CanonicalGet(le, b.fields, k);
        if Get(fields, k).Some? {
          GetDistinct(fields, k);
          GetDistinct(b.fields, k);
          SameCanonicalIff(le, Get(fields, k).value, Get(b.fields, k).value);
        }
      }
      SortedTies(le, fields, b.fields);
      if f == g {
        assert TiesAgree(le, f, g);
      } else if SameTies(le, a, b) {
        forall k ensures Get(f, k) == Get(g, k) {
          CanonicalGet(le, fields, k);
          CanonicalGet(le, b.fields, k);
        }
        CanonicalSorted(le, fields);
        CanonicalSorted(le, b.fields);
        CanonicalFieldsArePlain(le, fields);
        CanonicalFieldsArePlain(le, b.fields);
        SortedSame(le, f, g);
      }
    case _ =>
  }

  lemma {:induction false} SameCanonicalItemsIff(le: KeyOrder, a: Items, b: Items)
    requires TotalPreorder(le) && DistinctInItems(a) && DistinctInItems(b) && EquivalentItems(a, b)
    ensures CanonicalItems(le, a) == CanonicalItems(le, b) <==> SameTiesItems(le, a, b)
    decreases a
  {
    if a.Item? {
      SameCanonicalIff(le, a.head, b.head);
      SameCanonicalItemsIff(le, a.tail, b.tail);
    }
  }

  /** Two orders of one value have one text exactly when, in every object at every depth, the keys the
      comparison ties come in the same order in both. */
  lemma SameTextIff(le: KeyOrder, a: Json, b: Json)
    requires TotalPreorder(le) && DistinctKeys(a) && DistinctKeys(b) && !a.Undefined? && !b.Undefined? && Equivalent(a, b)
    ensures Text(le, a) == Text(le, b) <==> SameTies(le, a, b)
  {
    SameCanonicalIff(le, a, b);
    TextParses(le, a);
    TextParses(le, b);
    hide Canonical, Write, Equivalent, SameTies;
  }

  ghost predicate OneText(le: KeyOrder, v: Json)
    requires !v.Undefined?
  {
    forall w | DistinctKeys(w) && !w.Undefined? && Equivalent(v, w) :: Text(le, w) == Text(le, v)
  }

  /** The text of a value forgets key order, at every depth, exactly when no object in it has two
      different defined keys that the comparison ties. */
  lemma OneTextIff(le: KeyOrder, v: Json)
    requires TotalPreorder(le) && DistinctKeys(v) && !v.Undefined?
    ensures OneText(le, v) <==> Untied(le, v)
  {
    hide Text, Canonical, Equivalent, Untied;
    if Untied(le, v) {
      forall w | DistinctKeys(w) && !w.Undefined? && Equivalent(v, w) ensures Text(le, w) == Text(le, v) {
        SameValueSameText(le, v, w);
      }
    } else {
      var w := Twin(le, v);
      TextParses(le, v);
      TextParses(le, w);
    }
  }

  ghost predicate OrderIndependent(le: KeyOrder) {
    forall v | DistinctKeys(v) && !v.Undefined? :: OneText(le, v)
  }

  lemma {:induction false} NothingTied(le: KeyOrder, v: Json)
    requires Antisymmetric(le)
    ensures Untied(le, v)
    decreases v
  {
    match v
    case Arr(items) => NothingTiedItems(le, items);
    case Obj(fields) => NothingTiedFields(le, fields);
    case _ =>
  }

  lemma {:induction false} NothingTiedItems(le: KeyOrder, items: Items)
    requires Antisymmetric(le)
    ensures UntiedItems(le, items)
    decreases items
  {
    if items.Item? {
      NothingTied(le, items.head);
      NothingTiedItems(le, items.tail);
    }
  }

  lemma {:induction false} NothingTiedFields(le: KeyOrder, f: Fields)
    requires Antisymmetric(le)
    ensures UntiedFields(le, f)
    decreases f
  {
    if f.Field? {
      NothingTied(le, f.value);
      NothingTiedFields(le, f.rest);
    }
  }

  /** All texts forget key order exactly when the comparison never ties two different keys. */
  lemma OrderIndependentIff(le: KeyOrder)
    requires TotalPreorder(le)
    ensures OrderIndependent(le) <==> Antisymmetric(le)
  {
    hide Text, Untied, Equivalent, OneText;
    if Antisymmetric(le) {
      forall v | DistinctKeys(v) && !v.Undefined? ensures OneText(le, v) {
        NothingTied(le, v);
        OneTextIff(le, v);
      }
    }
    if OrderIndependent(le) {
      forall j, k | le(j, k) && le(k, j) ensures j == k {
        if j != k { PairTied(le, j, k); }
      }
    }
  }

  lemma PairTied(le: KeyOrder, j: string, k: string)
    requires TotalPreorder(le) && j != k && le(j, k) && le(k, j)
    ensures DistinctKeys(Pair(j, k)) && !OneText(le, Pair(j, k))
  {
    hide Text;
    var a, b := TiedKeys(le, j, k);
    PairStays(le, j, k);
    assert a == Pair(j, k);
  }

  function Pair(j: string, k: string): Json { Obj(Field(j, Null, Field(k, Null, NoFields))) }

  lemma PairStays(le: KeyOrder, j: string, k: string)
    requires j != k && le(j, k)
    ensures DistinctKeys(Pair(j, k)) && Canonical(le, Pair(j, k)) == Pair(j, k)
    ensures forall x :: Get(Pair(j, k).fields, x) == if x == j || x == k then Some(Null) else None
  {
    var last := Field(k, Null, NoFields);
    assert DistinctKeys(Null) && !Has(NoFields, k) && DistinctInFields(NoFields);
    assert DistinctInFields(last) && !Has(last, j);
    assert DistinctInFields(Field(j, Null, last));
    assert CanonicalFields(le, NoFields) == NoFields && Canonical(le, Null) == Null;
    assert CanonicalFields(le, last) == Insert(le, k, Null, NoFields) == last;
    assert Insert(le, j, Null, last) == Field(j, Null, last);
  }

  /** Two keys in the same place give one value two texts. */
  lemma TiedKeys(le: KeyOrder, j: string, k: string) returns (a: Json, b: Json)
    requires j != k && le(j, k) && le(k, j)
    ensures DistinctKeys(a) && DistinctKeys(b) && a == Pair(j, k) && b == Pair(k, j) && Equivalent(a, b)
    ensures Text(le, a) != Text(le, b)
  {
    a, b := Pair(j, k), Pair(k, j);
    PairStays(le, j, k);
    PairStays(le, k, j);
    TextParses(le, a);
    TextParses(le, b);
    hide Text, Parse, Get, Canonical, DistinctKeys;
    assert Equivalent(Null, Null);
  }

  /* ---- Round trips ---- */

  lemma {:induction false} SortedCanonical(le: KeyOrder, v: Json)
    requires TotalPreorder(le) && DistinctKeys(v)
    ensures Canonical(le, Canonical(le, v)) == Canonical(le, v)
    decreases v
  {
    match v
    case Arr(items) => SortedCanonicalItems(le, items);
    case Obj(fields) =>
      CanonicalSorted(le, fields);
      FixedFields(le, fields);
      SortedFieldsFixed(le, CanonicalFields(le, fields));
    case _ =>
  }

  lemma {:induction false} SortedCanonicalItems(le: KeyOrder, items: Items)
    requires TotalPreorder(le) && DistinctInItems(items)
    ensures CanonicalItems(le, CanonicalItems(le, items)) == CanonicalItems(le, items)
    decreases items
  {
    if items.Item? {
      SortedCanonical(le, items.head);
      SortedCanonicalItems(le, items.tail);
    }
  }

  predicate Fixed(le: KeyOrder, f: Fields) {
    f.Field? ==> !f.value.Undefined? && Canonical(le, f.value) == f.value && Fixed(le, f.rest)
  }

  lemma {:induction false} InsertFixed(le: KeyOrder, key: string, value: Json, sorted: Fields)
    requires !value.Undefined? && Canonical(le, value) == value && Fixed(le, sorted)
    ensures Fixed(le, Insert(le, key, value, sorted))
  {
    if sorted.Field? { InsertFixed(le, key, value, sorted.rest); }
  }

  lemma {:induction false} FixedFields(le: KeyOrder, f: Fields)
    requires TotalPreorder(le) && DistinctInFields(f)
    ensures Fixed(le, CanonicalFields(le, f))
    decreases f
  {
    if f.Field? {
      FixedFields(le, f.rest);
      if !f.value.Undefined? {
        SortedCanonical(le, f.value);
        CanonicalNotUndefined(le, f.value);
        InsertFixed(le, f.key, Canonical(le, f.value), CanonicalFields(le, f.rest));
      }
    }
  }

  lemma {:induction false} SortedFieldsFixed(le: KeyOrder, f: Fields)
    requires Sorted(le, f) && Fixed(le, f)
    ensures CanonicalFields(le, f) == f
  {
    if f.Field? { SortedFieldsFixed(le, f.rest); }
  }

  lemma {:induction false} CanonicalDistinct(le: KeyOrder, v: Json)
    requires DistinctKeys(v)
    ensures DistinctKeys(Canonical(le, v))
    decreases v
  {
    match v
    case Arr(items) => CanonicalItemsDistinct(le, items);
    case Obj(fields) => CanonicalFieldsDistinct(le, fields);
    case _ =>
  }

  lemma {:induction false} CanonicalItemsDistinct(le: KeyOrder, items: Items)
    requires DistinctInItems(items)
    ensures DistinctInItems(CanonicalItems(le, items))
    decreases items
  {
    if items.Item? {
      CanonicalDistinct(le, items.head);
      CanonicalItemsDistinct(le, items.tail);
    }
  }

  lemma {:induction false} InsertDistinct(le: KeyOrder, key: string, value: Json, sorted: Fields)
    requires !Has(sorted, key) && DistinctKeys(value) && DistinctInFields(sorted) && !value.Undefined?
    ensures DistinctInFields(Insert(le, key, value, sorted))
  {
    if sorted.Field? {
      InsertDistinct(le, key, value, sorted.rest);
      InsertGet(le, key, value, sorted.rest, sorted.key);
    }
  }

  lemma {:induction false} CanonicalFieldsDistinct(le: KeyOrder, f: Fields)
    requires DistinctInFields(f)
    ensures DistinctInFields(CanonicalFields(le, f))
    decreases f
  {
    if f.Field? {
      CanonicalFieldsDistinct(le, f.rest);
      CanonicalGet(le, f.rest, f.key);
      MissingGet(f.rest, f.key);
      if !f.value.Undefined? {
        CanonicalDistinct(le, f.value);
        CanonicalNotUndefined(le, f.value);
        InsertDistinct(le, f.key, Canonical(le, f.value), CanonicalFields(le, f.rest));
      }
    }
  }

  /** Parsing a canonical text gives the same JSON value back, and that value has the same text:
      `canonicalJson` after a parse changes nothing. */
  lemma TextRoundTrip(le: KeyOrder, v: Json)
    requires TotalPreorder(le) && DistinctKeys(v) && !v.Undefined?
    ensures Parse(Text(le, v)).Some?
    ensures var read := Parse(Text(le, v)).value;
      !read.Undefined? && DistinctKeys(read) && Equivalent(v, read) && Text(le, read) == Text(le, v)
  {
    TextParses(le, v);
    CanonicalNotUndefined(le, v);
    hide Canonical, Parse, Write, Equivalent, DistinctKeys;
    SortedCanonical(le, v);
    CanonicalDistinct(le, v);
    CanonicalEquivalent(le, v, Canonical(le, v));
  }
}

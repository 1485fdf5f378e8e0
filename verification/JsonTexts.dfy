/** The text of a JSON value as section 25.5.2 of ECMA-262 puts it together, and that the writer gives it. */
module JsonTexts {
  import opened Options
  import opened CanonicalJson

  /** The members between the brackets, with commas between them. */
  function Members(items: Items): string
    decreases items
  {
    match items
    case NoItems => ""
    case Item(head, tail) => JsonText(head) + (if tail.NoItems? then "" else "," + Members(tail))
  }

  function Properties(f: Fields): string
    decreases f
  {
    match f
    case NoFields => ""
    case Field(key, value, rest) =>
      "\"" + Spelled(key) + "\":" + JsonText(value) + (if rest.NoFields? then "" else "," + Properties(rest))
  }

  function Spelled(s: string): string { if s == "" then "" else Escape(s[0]) + Spelled(s[1..]) }

  function JsonText(v: Json): string
    decreases v
  {
    match v
    case Null => "null"
    case Undefined => "null"
    case Bool(flag) => if flag then "true" else "false"
    case Num(n) => if n < 0 then "-" + Decimal(-n) else Decimal(n)
    case Str(s) => "\"" + Spelled(s) + "\""
    case Arr(items) => "[" + Members(items) + "]"
    case Obj(f) => "{" + Properties(f) + "}"
  }

  function Decimal(n: nat): string { if n < 10 then ["0123456789"[n]] else Decimal(n / 10) + ["0123456789"[n % 10]] }

  /** Which characters are escaped, and how. */
  lemma EscapeSpelling(c: char)
    ensures c == '\"' ==> Escape(c) == "\\\""
    ensures c == '\\' ==> Escape(c) == "\\\\"
    ensures c as int == 8 ==> Escape(c) == "\\b"
    ensures c as int == 9 ==> Escape(c) == "\\t"
    ensures c as int == 10 ==> Escape(c) == "\\n"
    ensures c as int == 12 ==> Escape(c) == "\\f"
    ensures c as int == 13 ==> Escape(c) == "\\r"
    ensures c as int < 32 && c as int !in {8, 9, 10, 12, 13} ==>
      Escape(c) == (if c as int < 16 then "\\u000" else "\\u001") + ["0123456789abcdef"[c as int % 16]]
    ensures c as int >= 32 && c != '\"' && c != '\\' ==> Escape(c) == [c]
  {
    assert "\\u000" == ['\\', 'u', '0', '0', '0'] && "\\u001" == ['\\', 'u', '0', '0', '1'];
  }

  lemma {:induction false} CharsAre(s: string, then_: string)
    ensures WriteChars(s, then_) == Spelled(s) + "\"" + then_
  {
    hide Escape;
    if s != "" {
      CharsAre(s[1..], then_);
      assert Escape(s[0]) + (Spelled(s[1..]) + "\"" + then_) == (Escape(s[0]) + Spelled(s[1..])) + "\"" + then_;
    }
  }

  lemma {:induction false} DecimalIs(n: nat, then_: string)
    ensures WriteNat(n, then_) == Decimal(n) + then_
  {
    if n >= 10 {
      DecimalIs(n / 10, [Digit(n % 10)] + then_);
      assert Decimal(n / 10) + ([Digit(n % 10)] + then_) == (Decimal(n / 10) + [Digit(n % 10)]) + then_;
    }
  }

  /** The value a string of digits stands for. */
  function ValueOf(s: string): int { if s == "" then 0 else 10 * ValueOf(s[..|s| - 1]) + (s[|s| - 1] as int - '0' as int) }

  /** A number is written in decimal digits, without a leading zero, for its value. */
  lemma {:induction false} DecimalSpelling(n: nat)
    ensures ValueOf(Decimal(n)) == n && |Decimal(n)| > 0
    ensures n > 0 ==> Decimal(n)[0] != '0'
    ensures forall c | c in Decimal(n) :: '0' <= c <= '9'
  {
    if n < 10 {
      assert Decimal(n)[..0] == "" && ValueOf("") == 0;
    } else {
      DecimalSpelling(n / 10);
      assert Decimal(n)[..|Decimal(n)| - 1] == Decimal(n / 10);
    }
  }

  lemma Assoc(a: string, b: string, c: string)
    ensures a + (b + c) == a + b + c
  {
  }

  lemma {:induction false} WriterIs(v: Json, then_: string)
    ensures Write(v, then_) == JsonText(v) + then_
    decreases v, 1
  {
    hide Write, JsonText;
    match v
    case Arr(Item(head, tail)) => WriterOfItems(head, tail, then_);
    case Obj(Field(key, value, rest)) => WriterOfFields(key, value, rest, then_);
    case Num(n) => WriterOfNumber(n, then_);
    case Str(s) => WriterOfString(s, then_);
    case _ => WriterOfAtom(v, then_);
  }

  lemma WriterOfNumber(n: int, then_: string)
    ensures Write(Num(n), then_) == JsonText(Num(n)) + then_
  {
    DecimalIs(if n < 0 then -n else n, then_);
    hide Decimal, WriteNat;
    if n < 0 { Assoc("-", Decimal(-n), then_); }
  }

  lemma WriterOfString(s: string, then_: string)
    ensures Write(Str(s), then_) == JsonText(Str(s)) + then_
  {
    CharsAre(s, then_);
    hide WriteChars, Spelled;
    Enclosed("\"", Spelled(s), "", "\"", then_);
    assert "" + "\"" + then_ == "\"" + then_ && Spelled(s) + "" == Spelled(s) && ['\"'] == "\"";
    Assoc(Spelled(s), "\"", then_);
  }

  lemma WriterOfAtom(v: Json, then_: string)
    requires v.Null? || v.Undefined? || v.Bool? || v == Arr(NoItems) || v == Obj(NoFields)
    ensures Write(v, then_) == JsonText(v) + then_
  {
    if v.Arr? {
      assert Members(NoItems) == "" && "[" + "" + "]" == ['['] + [']'];
    } else if v.Obj? {
      assert Properties(NoFields) == "" && "{" + "" + "}" == ['{'] + ['}'];
    }
  }

  lemma {:induction false} WriterOfItems(head: Json, tail: Items, then_: string)
    ensures Write(Arr(Item(head, tail)), then_) == JsonText(Arr(Item(head, tail))) + then_
    decreases Item(head, tail), 0
  {
    WriterIs(head, WriteItems(tail, then_));
    ItemsAre(tail, then_);
    WriteArr(head, tail, then_);
    JsonArr(head, tail);
    hide Write, WriteItems, JsonText, Members;
    Enclosed("[", JsonText(head), if tail.NoItems? then "" else "," + Members(tail), "]", then_);
  }

  lemma JsonArr(head: Json, tail: Items)
    ensures JsonText(Arr(Item(head, tail))) == "[" + (JsonText(head) + (if tail.NoItems? then "" else "," + Members(tail))) + "]"
  {
  }

  lemma WriteArr(head: Json, tail: Items, then_: string)
    ensures Write(Arr(Item(head, tail)), then_) == "[" + Write(head, WriteItems(tail, then_))
  {
  }

  lemma {:induction false} ItemsAre(tail: Items, then_: string)
    ensures WriteItems(tail, then_) == (if tail.NoItems? then "" else "," + Members(tail)) + "]" + then_
    decreases tail, 2
  {
    match tail
    case NoItems =>
    case Item(head, rest) =>
      WriterIs(head, WriteItems(rest, then_));
      ItemsAre(rest, then_);
  }

  lemma {:induction false} FieldsAre(f: Fields, then_: string)
    ensures WriteFields(f, then_) == (if f.NoFields? then "" else "," + Properties(f)) + "}" + then_
    decreases f, 2
  {
    match f
    case NoFields =>
    case Field(key, value, rest) => FieldIs(key, value, WriteFields(rest, then_)); FieldsAre(rest, then_);
  }

  lemma {:induction false} FieldIs(key: string, value: Json, then_: string)
    ensures WriteField(key, value, then_) == "\"" + Spelled(key) + "\":" + JsonText(value) + then_
    decreases value, 2
  {
    WriterIs(value, then_);
    CharsAre(key, [':'] + Write(value, then_));
    WriteKey(key, value, then_);
    hide Write, WriteChars, WriteField, Spelled, JsonText;
    Colon(Spelled(key), JsonText(value), then_);
  }

  lemma WriteKey(key: string, value: Json, then_: string)
    ensures WriteField(key, value, then_) == "\"" + WriteChars(key, [':'] + Write(value, then_))
  {
  }

  lemma Colon(key: string, value: string, then_: string)
    ensures "\"" + (key + "\"" + ([':'] + (value + then_))) == "\"" + key + "\":" + value + then_
  {
    assert "\"" + [':'] == "\":";
    Assoc(key, "\"", [':']);
  }

  lemma {:induction false} WriterOfFields(key: string, value: Json, rest: Fields, then_: string)
    ensures Write(Obj(Field(key, value, rest)), then_) == JsonText(Obj(Field(key, value, rest))) + then_
    decreases Field(key, value, rest), 0
  {
    FieldIs(key, value, WriteFields(rest, then_));
    FieldsAre(rest, then_);
    WriteObj(key, value, rest, then_);
    JsonObj(key, value, rest);
    hide Write, WriteFields, WriteField, Spelled, JsonText, Properties;
    Enclosed("{", "\"" + Spelled(key) + "\":" + JsonText(value), if rest.NoFields? then "" else "," + Properties(rest), "}", then_);
  }

  lemma Enclosed(open: string, p: string, q: string, close: string, then_: string)
    ensures open + (p + (q + close + then_)) == open + (p + q) + close + then_
  {
  }

  lemma JsonObj(key: string, value: Json, rest: Fields)
    ensures JsonText(Obj(Field(key, value, rest)))
         == "{" + ("\"" + Spelled(key) + "\":" + JsonText(value) + (if rest.NoFields? then "" else "," + Properties(rest))) + "}"
  {
    hide Spelled;
  }

  lemma WriteObj(key: string, value: Json, rest: Fields, then_: string)
    ensures Write(Obj(Field(key, value, rest)), then_) == "{" + WriteField(key, value, WriteFields(rest, then_))
  {
  }

  /** The canonical text of a value is the JSON text of its canonical form. */
  lemma CanonicalText(le: KeyOrder, v: Json)
    requires !v.Undefined?
    ensures Text(le, v) == JsonText(Canonical(le, v))
  {
    hide Write, JsonText, Canonical;
    WriterIs(Canonical(le, v), "");
  }
}

/** The unpadded base32 codec of RFC 4648 section 6, on 32-bit accumulators that are never masked. */
module Base32 {
  import opened Options
  import opened Powers

  type Byte = x: int | 0 <= x < 256

  const ALPHABET: string := "ABCDEFGHIJKLMNOPQRSTUVWXYZ234567"
  const WORD: int := 0x1_0000_0000

  /* ---- 32-bit operators ---- */

  /** `(v << k) | low`, with `low` below the shifted bits. */
  function ShiftIn(v: int, k: nat, low: int): int { (v * Pow2(k) + low) % WORD }

  /** `(v >>> k) & (2 ** width - 1)` */
  function Field(v: int, k: nat, width: nat): int { (v / Pow2(k)) % Pow2(width) }

  /* ---- One bit string ---- */

  function ToBits(n: int, width: nat): (bs: seq<bool>)
    ensures |bs| == width
    decreases width
  {
    if width == 0 then [] else ToBits(n / 2, width - 1) + [n % 2 == 1]
  }

  function FromBits(bs: seq<bool>): (n: nat)
    ensures n < Pow2(|bs|)
  {
    if |bs| == 0 then 0 else 2 * FromBits(bs[..|bs| - 1]) + if bs[|bs| - 1] then 1 else 0
  }

  /** The bits of a sequence of `width`-bit numbers, most significant first. */
  function Stream(xs: seq<int>, width: nat): (bs: seq<bool>)
    ensures |bs| == width * |xs|
  {
    if |xs| == 0 then [] else Stream(xs[..|xs| - 1], width) + ToBits(xs[|xs| - 1], width)
  }

  lemma {:induction false} BitsOfNumber(n: int, width: nat)
    requires 0 <= n < Pow2(width)
    ensures FromBits(ToBits(n, width)) == n
  {
    if width > 0 {
      BitsOfNumber(n / 2, width - 1);
      assert ToBits(n, width)[..width - 1] == ToBits(n / 2, width - 1);
    }
  }

  lemma {:induction false} NumberOfBits(bs: seq<bool>)
    ensures ToBits(FromBits(bs), |bs|) == bs
  {
    if |bs| > 0 {
      NumberOfBits(bs[..|bs| - 1]);
      var n := FromBits(bs);
      assert n / 2 == FromBits(bs[..|bs| - 1]);
      assert bs == bs[..|bs| - 1] + [bs[|bs| - 1]];
    }
  }

  lemma Doubled(x: int, y: int, c: int, bit: int)
    ensures 2 * (x * y + c) + bit == x * (2 * y) + (2 * c + bit)
  {
  }

  lemma {:induction false} FromBitsAppend(a: seq<bool>, b: seq<bool>)
    ensures FromBits(a + b) == FromBits(a) * Pow2(|b|) + FromBits(b)
  {
    if |b| == 0 {
      assert a + b == a;
      assert Pow2(|b|) == 1 && FromBits(b) == 0;
    } else {
      var c, bit := b[..|b| - 1], if b[|b| - 1] then 1 else 0;
      FromBitsAppend(a, c);
      assert (a + b)[..|a + b| - 1] == a + c;
      assert FromBits(a + b) == 2 * FromBits(a + c) + bit && FromBits(b) == 2 * FromBits(c) + bit;
      assert Pow2(|b|) == 2 * Pow2(|c|);
      hide FromBits, Pow2;
      Doubled(FromBits(a), Pow2(|c|), FromBits(c), bit);
    }
  }

  lemma {:induction false} StreamAppend(xs: seq<int>, x: int, width: nat)
    ensures Stream(xs + [x], width) == Stream(xs, width) + ToBits(x, width)
  {
    assert (xs + [x])[..|xs|] == xs;
  }

  /** Numbers of one width are determined by their bits. */
  lemma {:induction false} StreamInjective(xs: seq<int>, ys: seq<int>, width: nat)
    requires |xs| == |ys| && Stream(xs, width) == Stream(ys, width)
    requires forall i | 0 <= i < |xs| :: 0 <= xs[i] < Pow2(width) && 0 <= ys[i] < Pow2(width)
    ensures xs == ys
  {
    hide ToBits, FromBits, Pow2;
    if |xs| > 0 {
      var n := |xs| - 1;
      SamePieces(Stream(xs[..n], width), ToBits(xs[n], width), Stream(ys[..n], width), ToBits(ys[n], width));
      BitsOfNumber(xs[n], width);
      BitsOfNumber(ys[n], width);
      StreamInjective(xs[..n], ys[..n], width);
      assert xs == xs[..n] + [xs[n]] && ys == ys[..n] + [ys[n]];
    }
  }

  lemma SamePieces(a: seq<bool>, p: seq<bool>, b: seq<bool>, q: seq<bool>)
    requires a + p == b + q && |p| == |q|
    ensures a == b && p == q
  {
    assert a == (a + p)[..|a|] && b == (b + q)[..|b|];
    assert p == (a + p)[|a|..] && q == (b + q)[|b|..];
  }

  function Zeros(n: nat): (z: seq<bool>)
    ensures |z| == n
  {
    seq(n, _ => false)
  }

  /* ---- The accumulator ---- */

  /** All the loops need of the accumulator: its low bits are the pending ones. */
  ghost predicate Pending(v: int, bits: nat, pending: seq<bool>) {
    0 <= v < WORD && |pending| == bits && v % Pow2(bits) == FromBits(pending)
  }

  lemma NonNegative(d: int, p: int)
    requires d >= 0 && p > 0
    ensures d * p >= 0
  {
  }

  lemma Distribute(a: int, q: int, p: int)
    ensures (a - q - 1) * p == a * p - q * p - p
  {
  }

  lemma MulGap(a: int, q: int, p: int)
    requires p > 0 && a > q
    ensures a * p >= q * p + p
  {
    NonNegative(a - q - 1, p);
    Distribute(a, q, p);
  }

  lemma DivMod(x: int, p: int, q: int, r: int)
    requires p > 0 && x == q * p + r && 0 <= r < p
    ensures x / p == q && x % p == r
  {
    var a, b := x / p, x % p;
    assert x == a * p + b && 0 <= b < p by { Division(x, p); }
    if a > q { MulGap(a, q, p); }
    if a < q { MulGap(q, a, p); }
  }

  lemma Division(x: int, p: int)
    requires p > 0
    ensures x == (x / p) * p + x % p && 0 <= x % p < p
  {
  }

  /** Dropping what overflows the word leaves the low bits alone. */
  lemma Shifted(v: int, p: int, k: int, m: int, low: int)
    requires 0 <= v && p > 0 && k > 0 && m > 0 && 0 <= low < k
    ensures ((v * k + low) % ((p * k) * m)) % (p * k) == (v % p) * k + low
  {
    var s, pk := v * k + low, p * k;
    var q, r := v / p, v % p;
    Division(v, p);
    assert pk > 0 && pk * m > 0;
    var t := s / (pk * m);
    Division(s, pk * m);
    assert s % (pk * m) == s - t * (pk * m);
    assert s == (q * p + r) * k + low == q * pk + (r * k + low) by { assert (q * p + r) * k == q * (p * k) + r * k; }
    assert t * (pk * m) == (t * m) * pk;
    assert s % (pk * m) == (q - t * m) * pk + (r * k + low) by { assert (q - t * m) * pk == q * pk - (t * m) * pk; }
    assert 0 <= r * k + low < pk by { MulGap(p, r, k); assert r * k >= 0; }
    DivMod(s % (pk * m), pk, q - t * m, r * k + low);
  }

  lemma ShiftKeepsLow(v: int, bits: nat, width: nat, low: int)
    requires 0 <= v < WORD && bits + width <= 12 && 0 <= low < Pow2(width)
    ensures 0 <= ShiftIn(v, width, low) < WORD
    ensures ShiftIn(v, width, low) % Pow2(bits + width) == (v % Pow2(bits)) * Pow2(width) + low
  {
    PowersAdd(bits, width);
    PowersAdd(bits + width, 32 - bits - width);
    WordIsPower();
    hide Pow2;
    Shifted(v, Pow2(bits), Pow2(width), Pow2(32 - bits - width), low);
  }

  lemma WordIsPower()
    ensures Pow2(32) == WORD
  {
    assert Pow2(8) == 256;
    PowersAdd(8, 8);
    PowersAdd(16, 16);
  }

  /** Taking the top `width` pending bits out leaves the rest pending. */
  lemma TakeField(v: int, k: nat, width: nat, high: int, low: int)
    requires 0 <= v && v % Pow2(width + k) == high * Pow2(k) + low && 0 <= low < Pow2(k) && 0 <= high < Pow2(width)
    ensures Field(v, k, width) == high && v % Pow2(k) == low
  {
    var p, w := Pow2(k), Pow2(width);
    PowersAdd(width, k);
    hide Pow2;
    var t := v / (w * p);
    assert w * p > 0;
    Division(v, w * p);
    assert t * (w * p) == (t * w) * p;
    assert v == (t * w + high) * p + low by { assert (t * w + high) * p == (t * w) * p + high * p; }
    DivMod(v, p, t * w + high, low);
    DivMod(t * w + high, w, t, high);
  }

  lemma PushBits(v: int, bits: nat, pending: seq<bool>, x: int, width: nat)
    requires Pending(v, bits, pending) && 0 <= x < Pow2(width)
    requires bits + width <= 12
    ensures Pending(ShiftIn(v, width, x), bits + width, pending + ToBits(x, width))
  {
    BitsOfNumber(x, width);
    FromBitsAppend(pending, ToBits(x, width));
    hide Pow2, ShiftIn, ToBits, FromBits;
    ShiftKeepsLow(v, bits, width, x);
  }

  lemma PopBits(v: int, bits: nat, pending: seq<bool>, width: nat)
    requires Pending(v, bits, pending) && width <= bits
    ensures Field(v, bits - width, width) == FromBits(pending[..width])
    ensures Pending(v, bits - width, pending[width..])
    ensures ToBits(Field(v, bits - width, width), width) == pending[..width]
  {
    assert pending == pending[..width] + pending[width..];
    FromBitsAppend(pending[..width], pending[width..]);
    NumberOfBits(pending[..width]);
    hide Pow2, Field, ToBits, FromBits;
    TakeField(v, bits - width, width, FromBits(pending[..width]), FromBits(pending[width..]));
  }

  /* ---- Characters ---- */

  function IndexOf(s: string, c: char): (i: int)
    ensures i == -1 <==> c !in s
    ensures i != -1 ==> 0 <= i < |s| && s[i] == c && c !in s[..i]
  {
    if |s| == 0 then -1
    else if s[0] == c then 0
    else
      var i := IndexOf(s[1..], c);
      assert i != -1 ==> s[..i + 1] == [s[0]] + s[1..][..i];
      if i == -1 then -1 else i + 1
  }

  function Letter(i: int): char
    requires 0 <= i < 32
  {
    if i < 26 then ('A' as int + i) as char else ('2' as int + (i - 26)) as char
  }

  lemma AlphabetIs(i: int)
    requires 0 <= i < 32
    ensures |ALPHABET| == 32 && ALPHABET[i] == Letter(i)
  {
  }

  lemma AlphabetSize()
    ensures |ALPHABET| == 32
  {
  }

  /** Every symbol stands for its own number. */
  lemma SymbolIndex(i: int)
    requires 0 <= i < 32
    ensures |ALPHABET| == 32 && IndexOf(ALPHABET, ALPHABET[i]) == i
  {
    AlphabetIs(i);
    var j := IndexOf(ALPHABET, ALPHABET[i]);
    AlphabetIs(j);
  }

  predicate InAlphabet(s: string) { forall c | c in s :: c in ALPHABET }

  function Indices(s: string): (xs: seq<int>)
    ensures |xs| == |s|
  {
    seq(|s|, i requires 0 <= i < |s| => IndexOf(ALPHABET, s[i]))
  }

  /** The bits a text spells, five to a symbol. */
  function QuintBits(s: string): (bs: seq<bool>)
    ensures |bs| == 5 * |s|
  {
    Stream(Indices(s), 5)
  }

  function ByteBits(bytes: seq<Byte>): (bs: seq<bool>)
    ensures |bs| == 8 * |bytes|
  {
    Stream(bytes, 8)
  }

  /* ---- Encoding ---- */

  /** The text of a byte string: its bits regrouped by five, the last group filled up with zeros. */
  ghost predicate Encodes(bytes: seq<Byte>, s: string) {
    && |s| == (8 * |bytes| + 4) / 5 && InAlphabet(s)
    && QuintBits(s) == ByteBits(bytes) + Zeros(5 * |s| - 8 * |bytes|)
  }

  lemma PushSymbol(s: string, q: int)
    requires 0 <= q < 32 && InAlphabet(s)
    ensures |ALPHABET| == 32 && InAlphabet(s + [ALPHABET[q]])
    ensures QuintBits(s + [ALPHABET[q]]) == QuintBits(s) + ToBits(q, 5)
  {
    SymbolIndex(q);
    var t := s + [ALPHABET[q]];
    hide IndexOf, ALPHABET;
    assert Indices(t) == Indices(s) + [q];
    StreamAppend(Indices(s), q, 5);
  }

  method Encode(bytes: seq<Byte>) returns (result: string)
    ensures Encodes(bytes, result)
  {
    hide ShiftIn, Field, ToBits, Stream, FromBits, Pow2, QuintBits, ByteBits, InAlphabet, Pending;
    var bits, value := 0, 0;
    result := "";
    ghost var pending: seq<bool> := [];
    EmptyStreams();
    for i := 0 to |bytes|
      invariant 0 <= bits < 5 && 8 * i == 5 * |result| + bits
      invariant Pending(value, bits, pending) && InAlphabet(result)
      invariant QuintBits(result) + pending == ByteBits(bytes[..i])
    {
      PushByte(value, bits, pending, bytes[i]);
      TakeByte(bytes, i);
      value := ShiftIn(value, 8, bytes[i]);
      bits := bits + 8;
      pending := pending + ToBits(bytes[i], 8);
      while bits >= 5
        invariant 0 <= bits <= 12 && 8 * (i + 1) == 5 * |result| + bits
        invariant Pending(value, bits, pending) && InAlphabet(result)
        invariant QuintBits(result) + pending == ByteBits(bytes[..i + 1])
      {
        TakeQuint(value, bits, pending);
        var q := Field(value, bits - 5, 5);
        PushSymbol(result, q);
        Regroup(QuintBits(result), pending, 5);
        result := result + [ALPHABET[q]];
        bits := bits - 5;
        pending := pending[5..];
      }
    }
    assert bytes[..|bytes|] == bytes;
    if bits > 0 {
      FillUp(value, bits, pending);
      var q := ShiftIn(value, 5 - bits, 0) % 32;
      PushSymbol(result, q);
      result := result + [ALPHABET[q]];
    }
    assert 5 * |result| - 8 * |bytes| < 5;
  }

  lemma EmptyStreams()
    ensures ByteBits([]) == [] && QuintBits("") == [] && Pending(0, 0, []) && InAlphabet("")
  {
    assert Indices("") == [];
  }

  lemma PushByte(v: int, bits: nat, pending: seq<bool>, b: Byte)
    requires Pending(v, bits, pending) && bits < 5
    ensures Pending(ShiftIn(v, 8, b), bits + 8, pending + ToBits(b, 8))
  {
    assert Pow2(8) == 256;
    PushBits(v, bits, pending, b, 8);
  }

  lemma TakeByte(bytes: seq<Byte>, i: nat)
    requires i < |bytes|
    ensures ByteBits(bytes[..i + 1]) == ByteBits(bytes[..i]) + ToBits(bytes[i], 8)
  {
    assert bytes[..i + 1] == bytes[..i] + [bytes[i]];
    StreamAppend(bytes[..i], bytes[i], 8);
  }

  lemma TakeQuint(v: int, bits: nat, pending: seq<bool>)
    requires Pending(v, bits, pending) && 5 <= bits
    ensures 0 <= Field(v, bits - 5, 5) < 32
    ensures ToBits(Field(v, bits - 5, 5), 5) == pending[..5] && Pending(v, bits - 5, pending[5..])
  {
    assert Pow2(5) == 32;
    PopBits(v, bits, pending, 5);
  }

  lemma Regroup(done: seq<bool>, pending: seq<bool>, n: nat)
    requires n <= |pending|
    ensures (done + pending[..n]) + pending[n..] == done + pending
  {
  }

  /** The last, partial group: shifted up, its low bits are zeros. */
  lemma FillUp(v: int, bits: nat, pending: seq<bool>)
    requires Pending(v, bits, pending) && 0 < bits < 5
    ensures 0 <= ShiftIn(v, 5 - bits, 0) % 32 < 32
    ensures ToBits(ShiftIn(v, 5 - bits, 0) % 32, 5) == pending + Zeros(5 - bits)
  {
    ShiftKeepsLow(v, bits, 5 - bits, 0);
    assert Pow2(5) == 32;
    ZeroBits(5 - bits);
    FromBitsAppend(pending, Zeros(5 - bits));
    NumberOfBits(pending + Zeros(5 - bits));
  }

  lemma {:induction false} ZeroBits(n: nat)
    ensures FromBits(Zeros(n)) == 0
  {
    if n > 0 {
      assert Zeros(n)[..n - 1] == Zeros(n - 1);
      ZeroBits(n - 1);
    }
  }

  /* ---- Decoding ---- */

  function StripPadding(s: string): string {
    if |s| > 0 && s[|s| - 1] == '=' then StripPadding(s[..|s| - 1]) else s
  }

  /** The whole bytes of the bits a text spells; fewer than eight bits left over are dropped. */
  ghost predicate Decodes(s: string, bytes: seq<Byte>) {
    |bytes| == 5 * |s| / 8 && ByteBits(bytes) == QuintBits(s)[..8 * |bytes|]
  }

  /** Capitalising is the runtime's own, with whatever it does outside ASCII. Refuses exactly the texts
      whose capitals, without padding, have a symbol outside the alphabet. */
  method Decode(upper: string -> string, value: string) returns (result: Option<seq<Byte>>)
    ensures result.None? <==> !InAlphabet(StripPadding(upper(value)))
    ensures result.Some? ==> Decodes(StripPadding(upper(value)), result.value)
  {
    hide ShiftIn, Field, ToBits, Stream, FromBits, Pow2, QuintBits, ByteBits, Pending, IndexOf, ALPHABET;
    var s := StripPadding(upper(value));
    hide StripPadding;
    var bits, accumulator, bytes: seq<Byte> := 0, 0, [];
    ghost var pending: seq<bool> := [];
    EmptyStreams();
    for i := 0 to |s|
      invariant 0 <= bits < 8 && 5 * i == 8 * |bytes| + bits
      invariant Pending(accumulator, bits, pending) && InAlphabet(s[..i])
      invariant ByteBits(bytes) + pending == QuintBits(s[..i])
    {
      var index := IndexOf(ALPHABET, s[i]);
      if index < 0 {
        assert s[i] in s;
        return None;
      }
      TakeSymbol(s, i);
      PushQuint(accumulator, bits, pending, index);
      accumulator := ShiftIn(accumulator, 5, index);
      bits := bits + 5;
      pending := pending + ToBits(index, 5);
      if bits >= 8 {
        TakeOctet(accumulator, bits, pending);
        var byte: Byte := Field(accumulator, bits - 8, 8);
        AppendByte(bytes, byte);
        Regroup(ByteBits(bytes), pending, 8);
        bytes := bytes + [byte];
        bits := bits - 8;
        pending := pending[8..];
      }
    }
    assert s[..|s|] == s;
    assert QuintBits(s)[..8 * |bytes|] == ByteBits(bytes);
    result := Some(bytes);
  }

  lemma TakeSymbol(s: string, i: nat)
    requires i < |s| && InAlphabet(s[..i]) && IndexOf(ALPHABET, s[i]) >= 0
    ensures InAlphabet(s[..i + 1]) && |ALPHABET| == 32 && IndexOf(ALPHABET, s[i]) < 32
    ensures QuintBits(s[..i + 1]) == QuintBits(s[..i]) + ToBits(IndexOf(ALPHABET, s[i]), 5)
  {
    hide IndexOf, ALPHABET;
    AlphabetSize();
    var index := IndexOf(ALPHABET, s[i]);
    assert s[..i + 1] == s[..i] + [s[i]];
    assert Indices(s[..i + 1]) == Indices(s[..i]) + [index];
    StreamAppend(Indices(s[..i]), index, 5);
  }

  lemma PushQuint(v: int, bits: nat, pending: seq<bool>, q: int)
    requires Pending(v, bits, pending) && bits < 8 && 0 <= q < 32
    ensures Pending(ShiftIn(v, 5, q), bits + 5, pending + ToBits(q, 5))
  {
    assert Pow2(5) == 32;
    PushBits(v, bits, pending, q, 5);
  }

  lemma TakeOctet(v: int, bits: nat, pending: seq<bool>)
    requires Pending(v, bits, pending) && 8 <= bits
    ensures 0 <= Field(v, bits - 8, 8) < 256
    ensures ToBits(Field(v, bits - 8, 8), 8) == pending[..8] && Pending(v, bits - 8, pending[8..])
  {
    assert Pow2(8) == 256;
    PopBits(v, bits, pending, 8);
  }

  lemma AppendByte(bytes: seq<Byte>, b: Byte)
    ensures ByteBits(bytes + [b]) == ByteBits(bytes) + ToBits(b, 8)
  {
    StreamAppend(bytes, b, 8);
  }

  /* ---- Round trip ---- */

  /** Capital letters and digits are their own capitals. */
  ghost predicate KeepsCapitals(upper: string -> string) {
    forall s | InAlphabet(s) :: upper(s) == s
  }

  lemma NotPadding(s: string)
    requires InAlphabet(s)
    ensures StripPadding(s) == s
  {
    hide ALPHABET;
    if |s| > 0 { SymbolIsNoPadding(s[|s| - 1]); }
  }

  lemma SymbolIsNoPadding(c: char)
    requires c in ALPHABET
    ensures c != '='
  {
    hide IndexOf;
    AlphabetSize();
    AlphabetIs(IndexOf(ALPHABET, c));
    hide ALPHABET;
  }

  /** Decoding undoes encoding, for every byte string. */
  lemma DecodeUndoesEncode(bytes: seq<Byte>, s: string, out: seq<Byte>)
    requires Encodes(bytes, s) && Decodes(s, out)
    ensures out == bytes
  {
    assert |out| == |bytes|;
    assert ByteBits(out) == ByteBits(bytes);
    assert Pow2(8) == 256;
    StreamInjective(out, bytes, 8);
  }

  method RoundTrip(upper: string -> string, bytes: seq<Byte>) returns (s: string, back: Option<seq<Byte>>)
    requires KeepsCapitals(upper)
    ensures |s| == (8 * |bytes| + 4) / 5 && back == Some(bytes)
  {
    s := Encode(bytes);
    back := Decode(upper, s);
    hide Stream, ToBits, IndexOf, ALPHABET, QuintBits, ByteBits;
    NotPadding(s);
    DecodeUndoesEncode(bytes, s, back.value);
  }
}

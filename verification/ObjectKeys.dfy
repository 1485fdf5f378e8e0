/** The object store's key for one receipt, and why two receipts never share one. */
module ObjectKeys {
  import opened CanonicalJson
  import opened Envelope

  const KEY_DIGITS: nat := 20

  function PadLeft(n: nat, then_: string): (s: string)
    ensures |s| == n + |then_|
  {
    if n == 0 then then_ else ['0'] + PadLeft(n - 1, then_)
  }

  /** `String(n).padStart(20, '0')` */
  function Padded(n: nat): string {
    var digits := WriteNat(n, "");
    if |digits| >= KEY_DIGITS then digits else PadLeft(KEY_DIGITS - |digits|, digits)
  }

  function ObjectKey(prefix: string, sourceId: string, chainSequence: nat): string {
    prefix + ("/" + (sourceId + ("/" + (Padded(chainSequence) + ".json"))))
  }

  function Pow10(k: nat): nat { if k == 0 then 1 else 10 * Pow10(k - 1) }

  lemma {:induction false} DigitsFit(n: nat, k: nat, then_: string)
    requires k > 0 && n < Pow10(k)
    ensures |WriteNat(n, then_)| <= k + |then_|
  {
    if n >= 10 {
      assert Pow10(1) == 10 * Pow10(0);
      assert n / 10 < Pow10(k - 1);
      DigitsFit(n / 10, k - 1, [Digit(n % 10)] + then_);
    }
  }

  lemma {:induction false} ReadsPadding(n: nat, then_: string)
    ensures ReadNat(PadLeft(n, then_), 0) == ReadNat(then_, 0)
  {
    if n > 0 {
      assert (['0'] + PadLeft(n - 1, then_))[1..] == PadLeft(n - 1, then_);
      ReadsPadding(n - 1, then_);
    }
  }

  /** Every safe integer is padded to twenty digits, and the digits read back as the integer. */
  lemma PaddedReadsBack(n: nat)
    requires n <= MAX_SAFE
    ensures |Padded(n)| == KEY_DIGITS && ReadNat(Padded(n), 0) == (n, "")
  {
    TwentyDigits();
    DigitsFit(n, KEY_DIGITS, "");
    ReadsNat(n, "");
    ReadsPadding(KEY_DIGITS - |WriteNat(n, "")|, WriteNat(n, ""));
    hide WriteNat, PadLeft;
  }

  lemma TwentyDigits()
    ensures MAX_SAFE < Pow10(KEY_DIGITS)
  {
    assert Pow10(4) == 10_000;
    assert Pow10(8) == 100_000_000;
    assert Pow10(12) == 1_000_000_000_000;
    assert Pow10(16) == 10_000_000_000_000_000;
  }

  lemma SameTail(a: string, b: string, c: string, d: string)
    requires a + b == c + d && |b| == |d|
    ensures a == c && b == d
  {
    assert a == (a + b)[..|a|] && b == (a + b)[|a|..];
    assert c == (c + d)[..|c|] && d == (c + d)[|c|..];
  }

  /** Different (source, sequence) pairs have different keys. */
  lemma ObjectKeyInjective(prefix: string, s: string, m: nat, t: string, n: nat)
    requires m <= MAX_SAFE && n <= MAX_SAFE && ObjectKey(prefix, s, m) == ObjectKey(prefix, t, n)
    ensures s == t && m == n
  {
    PaddedReadsBack(m);
    PaddedReadsBack(n);
    hide Padded, ReadNat;
    var x, y := Padded(m) + ".json", Padded(n) + ".json";
    var p, q := s + ("/" + x), t + ("/" + y);
    assert ("/" + p) == ObjectKey(prefix, s, m)[|prefix|..];
    assert ("/" + q) == ObjectKey(prefix, t, n)[|prefix|..];
    assert p == ("/" + p)[1..] && q == ("/" + q)[1..];
    SameTail(s, "/" + x, t, "/" + y);
    SameTail("/", x, "/", y);
    SameTail(Padded(m), ".json", Padded(n), ".json");
  }
}

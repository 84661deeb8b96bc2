/** Row keys of ordered sources: `"{pval}__%04d"` written into a 128-byte buffer. */
module OrderedKeys {
  import opened Text

  const KEY_BUFFER := 128

  /** A numeral padded with zeros to at least w characters. */
  function Padded(w: nat, n: nat): string {
    var d := Digits(n);
    Zeros(if |d| < w then w - |d| else 0) + d
  }

  lemma PaddedValue(w: nat, n: nat)
    ensures AllDigits(Padded(w, n)) && Padded(w, n) != "" && Val(Padded(w, n)) == n
  {
    ValOfDigits(n);
    LeadingZeros(if |Digits(n)| < w then w - |Digits(n)| else 0, Digits(n));
  }

  /** `%04d`, negative positions included. */
  function Pos04(pos: int): string {
    if pos < 0 then "-" + Padded(3, -pos) else Padded(4, pos)
  }

  /** The key as formatted, before it is cut to the buffer. */
  function Key(pval: string, pos: int): string {
    pval + "__" + Pos04(pos)
  }

  /** What `snprintf` leaves in a buffer of `KEY_BUFFER` bytes. */
  function BuildKey(pval: string, pos: int): string {
    var k := Key(pval, pos);
    k[..Min(|k|, KEY_BUFFER - 1)]
  }

  // ---- decoding ----------------------------------------------------------

  function LastUnderscore(k: string): (r: int)
    ensures -1 <= r < |k|
    ensures r >= 0 ==> k[r] == '_'
    ensures forall j :: r < j < |k| ==> k[j] != '_'
  {
    if k == "" then -1
    else if k[|k| - 1] == '_' then |k| - 1
    else LastUnderscore(k[..|k| - 1])
  }

  function PartOf(k: string): string {
    var u := LastUnderscore(k);
    if u >= 1 then k[..u - 1] else ""
  }

  function PosOf(k: string): int {
    SignedVal(k[LastUnderscore(k) + 1..])
  }

  function SignedVal(t: string): int {
    var negative := t != "" && t[0] == '-';
    var v: int := Val(if negative then t[1..] else t);
    if negative then -v else v
  }

  lemma SignedDigits(d: string, negative: bool)
    requires AllDigits(d) && d != ""
    ensures var t := if negative then "-" + d else d;
            && (forall i :: 0 <= i < |t| ==> t[i] != '_')
            && (negative ==> SignedVal(t) + Val(d) == 0) && (!negative ==> SignedVal(t) == Val(d))
  {
    hide Val;
    if negative {
      assert ("-" + d)[1..] == d;
    }
  }

  lemma Pos04NoUnderscore(pos: int)
    ensures forall i :: 0 <= i < |Pos04(pos)| ==> Pos04(pos)[i] != '_'
    ensures Pos04(pos) != "" && SignedVal(Pos04(pos)) == pos
  {
    hide Padded, SignedVal, Val, AllDigits;
    if pos < 0 {
      PaddedValue(3, -pos);
      SignedDigits(Padded(3, -pos), true);
    } else {
      PaddedValue(4, pos);
      SignedDigits(Padded(4, pos), false);
    }
  }

  lemma SplitsAtLast(p: string, t: string)
    requires forall i :: 0 <= i < |t| ==> t[i] != '_'
    ensures var k := p + "__" + t; LastUnderscore(k) == |p| + 1 && k[..|p|] == p && k[|p| + 2..] == t
  {
    hide LastUnderscore;
    var k := p + "__" + t;
    assert k[|p| + 1] == '_';
    assert forall j :: |p| + 2 <= j < |k| ==> k[j] == t[j - |p| - 2];
  }

  /** Every key decodes to the partition and the position it was built from. */
  lemma KeyDecodes(pval: string, pos: int)
    ensures PartOf(Key(pval, pos)) == pval && PosOf(Key(pval, pos)) == pos
  {
    hide Pos04, SignedVal, LastUnderscore;
    Pos04NoUnderscore(pos);
    SplitsAtLast(pval, Pos04(pos));
  }

  lemma KeyExamples()
    ensures Key("list", 7) == "list__0007" && Key("a", -3) == "a__-003"
  {
    NumeralExamples();
    hide Digits, Zeros;
  }

  lemma NumeralExamples()
    ensures Digits(7) == "7" && Digits(3) == "3" && Zeros(3) == "000" && Zeros(2) == "00"
  {
  }

  /** Keys are injective in partition and position, whatever characters the partition has. */
  lemma KeyInjective(p: string, i: int, q: string, j: int)
    ensures Key(p, i) == Key(q, j) <==> p == q && i == j
  {
    KeyDecodes(p, i);
    KeyDecodes(q, j);
  }

  /** The buffer carries the keys of the first n positions. */
  predicate Carries(pval: string, n: nat) {
    n == 0 || |Key(pval, n - 1)| < KEY_BUFFER
  }

  lemma {:induction false} DigitsGrow(i: nat, j: nat)
    requires i <= j
    ensures |Digits(i)| <= |Digits(j)|
    decreases j
  {
    if j >= 10 {
      DigitsGrow(i / 10, j / 10);
    }
  }

  /** Keys grow with the position, so the last one decides. */
  lemma CarriesBelow(pval: string, n: nat, i: nat)
    requires Carries(pval, n) && i < n
    ensures |Key(pval, i)| < KEY_BUFFER && BuildKey(pval, i) == Key(pval, i) && Carries(pval, i + 1) && Carries(pval, i)
  {
    DigitsGrow(i, n - 1);
    if i > 0 {
      DigitsGrow(i - 1, n - 1);
    }
    hide Digits;
  }

  /** Up to 10000 positions a partition value of 121 bytes is carried, and no longer one. */
  lemma CarriesFour(pval: string, n: nat)
    requires 0 < n <= 10_000
    ensures Carries(pval, n) <==> |pval| + 6 < KEY_BUFFER
  {
    FourDigits(n - 1);
  }

  /** A partition whose keys never outgrow the buffer, for any 32-bit position. */
  predicate Fits(pval: string) {
    |pval| + 2 + 11 < KEY_BUFFER
  }

  lemma BuildKeyExact(pval: string, pos: int)
    requires -0x8000_0000 <= pos < 0x8000_0000 && Fits(pval)
    ensures BuildKey(pval, pos) == Key(pval, pos)
  {
    var n := if pos < 0 then -pos else pos;
    assert Pow10(10) == 10_000_000_000 by { Pow10Ten(); }
    DigitsAtMost(n, 10);
  }

  lemma Pow10Ten()
    ensures Pow10(10) == 10_000_000_000
  {
    assert Pow10(5) == 100_000;
  }

  /** Cutting loses positions: the four-digit keys of a partition stay distinct exactly when
      the whole key fits the buffer, which a caller can read off the partition's length. */
  lemma FourDigitKeysDistinct(pval: string)
    ensures (forall i, j :: 0 <= i < j < 10_000 ==> BuildKey(pval, i) != BuildKey(pval, j))
            <==> |pval| + 6 < KEY_BUFFER
  {
    if |pval| + 6 < KEY_BUFFER {
      forall i, j | 0 <= i < j < 10_000
        ensures BuildKey(pval, i) != BuildKey(pval, j)
      {
        FourDigits(i);
        FourDigits(j);
        KeyInjective(pval, i, pval, j);
      }
    } else {
      assert Digits(0) == "0" && Digits(1) == "1";
      assert Pos04(0) == "0000" && Pos04(1) == "0001";
      assert Key(pval, 0)[..|pval| + 5] == Key(pval, 1)[..|pval| + 5];
      assert BuildKey(pval, 0) == Key(pval, 0)[..|pval| + 5][..127];
      assert BuildKey(pval, 1) == Key(pval, 1)[..|pval| + 5][..127];
    }
  }

  lemma FourDigits(i: nat)
    requires i < 10_000
    ensures |Pos04(i)| == 4
  {
    assert Pow10(4) == 10_000;
    DigitsAtMost(i, 4);
  }

  // ---- the prefix scan ---------------------------------------------------

  /** What the counting scan tests: the key starts with the partition and two underscores. */
  predicate CountedAs(pval: string, key: string) {
    pval + "__" <= key
  }

  /** A partition q whose rows are counted as rows of p. */
  predicate Shadows(q: string, p: string) {
    p + "__" <= q + "__"
  }

  /** The scan counts a key of q for p exactly when `q__` begins with `p__`. */
  lemma CountedAsIff(p: string, q: string, pos: int)
    ensures CountedAs(p, Key(q, pos)) <==> Shadows(q, p)
  {
    var k, t := Key(q, pos), Pos04(pos);
    Pos04NoUnderscore(pos);
    if CountedAs(p, k) {
      assert k[|p| + 1] == '_';
      assert q + "__" == k[..|q| + 2];
      assert p + "__" == k[..|p| + 2];
    }
  }
}

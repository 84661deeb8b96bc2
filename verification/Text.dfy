/** C strings and decimal numerals.  A `char` stands for one byte of a C string. */
module Text {

  predicate IsDigit(c: char) {
    '0' <= c <= '9'
  }

  predicate AllDigits(s: string) {
    forall i :: 0 <= i < |s| ==> IsDigit(s[i])
  }

  function DigitChar(d: nat): (c: char)
    requires d < 10
    ensures IsDigit(c) && c as int - '0' as int == d
  {
    ('0' as int + d) as char
  }

  /** The text `snprintf` writes for "%d" or "%u" of a natural number. */
  function Digits(n: nat): string {
    if n < 10 then [DigitChar(n)] else Digits(n / 10) + [DigitChar(n % 10)]
  }

  /** The text of an integer. */
  function IntText(i: int): string {
    if i < 0 then "-" + Digits(-i) else Digits(i)
  }

  /** The value of a hexadecimal digit, or -1. */
  function Hex(c: char): (v: int)
    ensures -1 <= v < 16
  {
    if '0' <= c <= '9' then c as int - '0' as int
    else if 'a' <= c <= 'f' then c as int - 'a' as int + 10
    else if 'A' <= c <= 'F' then c as int - 'A' as int + 10
    else -1
  }

  /** A lower-case hexadecimal digit. */
  function LowerHex(v: nat): (c: char)
    requires v < 16
    ensures c >= ' ' && Hex(c) == v
  {
    if v < 10 then ('0' as int + v) as char else ('a' as int + v - 10) as char
  }

  /** The number a decimal text denotes; a stray character counts as a zero digit. */
  function Val(s: string): nat {
    if s == "" then 0
    else
      var c := s[|s| - 1];
      10 * Val(s[..|s| - 1]) + (if IsDigit(c) then c as int - '0' as int else 0)
  }

  lemma {:induction false} ValOfDigits(n: nat)
    ensures Val(Digits(n)) == n
    ensures AllDigits(Digits(n)) && Digits(n) != ""
    ensures Digits(n)[0] == '0' <==> n == 0
    decreases n
  {
    if n < 10 {
      assert Digits(n)[..0] == "";
    } else {
      ValOfDigits(n / 10);
      assert Digits(n)[..|Digits(n)| - 1] == Digits(n / 10);
    }
  }

  /** A decimal text with the sign and the value of i, and no leading zero. */
  predicate Denotes(text: string, i: int) {
    var negative := text != "" && text[0] == '-';
    var d := if negative then text[1..] else text;
    d != "" && AllDigits(d) && (d[0] == '0' ==> d == "0") && (negative <==> i < 0)
    && Val(d) == if i < 0 then -i else i
  }

  lemma IntTextDenotes(i: int)
    ensures Denotes(IntText(i), i)
  {
    var n := if i < 0 then -i else i;
    ValOfDigits(n);
    assert Digits(n)[0] == '0' ==> Digits(n) == "0";
    assert IsDigit(Digits(n)[0]);
    hide Digits;
    assert i < 0 ==> IntText(i)[1..] == Digits(n);
  }

  /** Such a text is the text of i. */
  lemma DenotesIs(text: string, i: int)
    ensures Denotes(text, i) <==> text == IntText(i)
  {
    IntTextDenotes(i);
    if Denotes(text, i) {
      DigitsOfVal(if i < 0 then text[1..] else text);
    }
    hide Digits, Val;
  }

  lemma {:induction false} DigitsOfVal(d: string)
    requires d != "" && AllDigits(d) && (d[0] == '0' ==> d == "0")
    ensures Digits(Val(d)) == d
  {
    var front, c := d[..|d| - 1], d[|d| - 1];
    if front != "" {
      DigitsOfVal(front);
      assert front[0] == d[0] && d == front + [c];
      PositiveVal(front);
    } else {
      assert d == [c] && Val(front) == 0;
    }
  }

  lemma {:induction false} PositiveVal(d: string)
    requires d != "" && AllDigits(d) && d[0] != '0'
    ensures Val(d) > 0
  {
    if |d| > 1 {
      PositiveVal(d[..|d| - 1]);
    }
  }

  /** Most significant digit first. */
  lemma NumberExamples()
    ensures Denotes("-12", -12) && Denotes("1203", 1203) && !Denotes("3021", 1203)
  {
    assert "12"[1..] == "2" && "2"[1..] == "" && "-12"[1..] == "12";
    assert "12"[..1] == "1" && "1203"[..3] == "120" && "120"[..2] == "12";
    assert "3021"[..3] == "302" && "302"[..2] == "30" && "30"[..1] == "3";
  }

  /** A numeral below ten to the power k has at most k digits. */
  lemma {:induction false} DigitsAtMost(n: nat, k: nat)
    requires 0 < k && n < Pow10(k)
    ensures |Digits(n)| <= k
    decreases k
  {
    if n >= 10 {
      DigitsAtMost(n / 10, k - 1);
    }
  }

  function Pow10(k: nat): (p: nat)
    ensures p >= 1
  {
    if k == 0 then 1 else 10 * Pow10(k - 1)
  }

  function Zeros(k: nat): (s: string)
    ensures |s| == k && forall i :: 0 <= i < k ==> s[i] == '0'
  {
    seq(k, i => '0')
  }

  lemma {:induction false} LeadingZeros(k: nat, s: string)
    ensures Val(Zeros(k) + s) == Val(s)
    decreases |s|, k
  {
    var t := Zeros(k) + s;
    if s != "" {
      assert t[..|t| - 1] == Zeros(k) + s[..|s| - 1];
      LeadingZeros(k, s[..|s| - 1]);
    } else if k > 0 {
      assert t[..|t| - 1] == Zeros(k - 1) + "";
      LeadingZeros(k - 1, "");
    }
  }

  /** Index of the first c in s (`strchr`), or |s| when there is none. */
  function IndexOf(s: string, c: char): (i: nat)
    ensures i <= |s|
    ensures i < |s| ==> s[i] == c
    ensures forall j :: 0 <= j < i ==> s[j] != c
  {
    IndexFrom(s, c, 0)
  }

  function IndexFrom(s: string, c: char, from: nat): (i: nat)
    requires from <= |s|
    ensures from <= i <= |s|
    ensures i < |s| ==> s[i] == c
    ensures forall j :: from <= j < i ==> s[j] != c
    decreases |s| - from
  {
    if from == |s| || s[from] == c then from else IndexFrom(s, c, from + 1)
  }

  /** The pieces of s between occurrences of c; there is always at least one. */
  function Split(s: string, c: char): (r: seq<string>)
    ensures r != []
    decreases |s|
  {
    var i := IndexOf(s, c);
    if i == |s| then [s] else [s[..i]] + Split(s[i + 1..], c)
  }

  function Min(a: nat, b: nat): (m: nat)
    ensures m <= a && m <= b
  {
    if a < b then a else b
  }
}

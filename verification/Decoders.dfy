/** The three percent-decoders: the in-place one of query.c, the bounded one of url.c, and the
    byte-vector one of query.rs. */
module Decoders {
  import opened Text
  import opened Wrappers

  const NUL: char := '\0'

  predicate IsByte(c: char) {
    c as int < 256
  }

  predicate IsSpace(c: char) {
    c == ' ' || '\t' <= c <= '\r'
  }

  /** `strtol` of two characters in base 16: blanks and a sign are skipped, and the conversion
      stops at the first character that is not a digit. */
  function Strtol(a: char, b: char): (v: int)
    ensures -16 < v < 256
  {
    if IsSpace(a) || a == '+' then (if Hex(b) >= 0 then Hex(b) else 0)
    else if a == '-' then (if Hex(b) >= 0 then 0 - Hex(b) else 0)
    else if Hex(a) < 0 then 0
    else if Hex(b) < 0 then Hex(a)
    else 16 * Hex(a) + Hex(b)
  }

  /** Whether `strtol` read both characters. */
  predicate ReadsBoth(a: char, b: char) {
    Hex(b) >= 0 && (IsSpace(a) || a == '+' || a == '-' || Hex(a) >= 0)
  }

  /** The C conversion to `char`. */
  function ToByte(v: int): (c: char)
    requires -256 < v < 256
  {
    (if v < 0 then v + 256 else v) as char
  }

  function Plain(c: char): char {
    if c == '+' then ' ' else c
  }

  /** `url_decode` (query.c): any two characters after a percent sign are converted. */
  function Decode(s: string): (d: string)
    ensures |d| <= |s|
  {
    if s == "" then ""
    else if s[0] == '%' && |s| >= 3 then [ToByte(Strtol(s[1], s[2]))] + Decode(s[3..])
    else [Plain(s[0])] + Decode(s[1..])
  }

  predicate QsAccepts(a: char, b: char) {
    ReadsBoth(a, b) && Strtol(a, b) >= 0
  }

  /** `hyle_qs_decode` (url.c) without its bound: an escape must be read whole and not be negative. */
  function QsDecode(s: string): (d: string)
    ensures |d| <= |s|
  {
    if s == "" then ""
    else if s[0] == '%' && |s| >= 3 && QsAccepts(s[1], s[2]) then
      [ToByte(Strtol(s[1], s[2]))] + QsDecode(s[3..])
    else [Plain(s[0])] + QsDecode(s[1..])
  }

  /** `percent_decode` (query.rs) after its `replace('+', " ")`: only two hex digits are an escape. */
  function HexDecode(s: string): (d: string)
    ensures |d| <= |s|
  {
    if s == "" then ""
    else if s[0] == '%' && |s| >= 3 && Hex(s[1]) >= 0 && Hex(s[2]) >= 0 then
      [ToByte(16 * Hex(s[1]) + Hex(s[2]))] + HexDecode(s[3..])
    else [s[0]] + HexDecode(s[1..])
  }

  function Spaces(s: string): (t: string)
    ensures |t| == |s| && forall i :: 0 <= i < |s| ==> t[i] == Plain(s[i])
  {
    seq(|s|, i requires 0 <= i < |s| => Plain(s[i]))
  }

  function RustDecode(s: string): string {
    HexDecode(Spaces(s))
  }

  // ---- where the decoders agree ------------------------------------------------

  /** The triples a left-to-right scan takes for escapes all satisfy ok. */
  predicate Escapes(s: string, ok: (char, char) -> bool) {
    if s == "" then true
    else if s[0] == '%' && |s| >= 3 then ok(s[1], s[2]) && Escapes(s[3..], ok)
    else Escapes(s[1..], ok)
  }

  /** The two C decoders agree exactly on the strings whose escapes the stricter one accepts. */
  lemma {:induction false} CDecodersAgreeIff(s: string)
    ensures Decode(s) == QsDecode(s) <==> Escapes(s, QsAccepts)
    decreases |s|
  {
    if s == "" {
    } else if s[0] == '%' && |s| >= 3 {
      CDecodersAgreeIff(s[3..]);
      if QsAccepts(s[1], s[2]) {
        assert Decode(s)[1..] == Decode(s[3..]) && QsDecode(s)[1..] == QsDecode(s[3..]);
      } else {
        assert Decode(s)[0] == ToByte(Strtol(s[1], s[2])) && QsDecode(s)[0] == '%';
      }
    } else {
      CDecodersAgreeIff(s[1..]);
      assert Decode(s)[1..] == Decode(s[1..]) && QsDecode(s)[1..] == QsDecode(s[1..]);
    }
  }

  predicate TwoHex(a: char, b: char) {
    Hex(a) >= 0 && Hex(b) >= 0
  }

  /** Percent signs each followed by two hex digits. */
  predicate WellFormed(s: string) {
    forall i :: 0 <= i < |s| && s[i] == '%' ==> i + 2 < |s| && TwoHex(s[i + 1], s[i + 2])
  }

  /** A well-formed string starts with an escape that all decoders read, or a plain character. */
  lemma WellFormedHead(s: string)
    requires WellFormed(s) && s != ""
    ensures s[0] == '%' ==> |s| >= 3 && TwoHex(s[1], s[2])
    ensures WellFormed(s[if s[0] == '%' then 3 else 1..])
  {
  }

  /** Two hex digits are read whole by every decoder. */
  lemma HexPair(a: char, b: char)
    requires TwoHex(a, b)
    ensures QsAccepts(a, b) && Strtol(a, b) == 16 * Hex(a) + Hex(b) && Hex(a) >= 0 && Hex(b) >= 0
    ensures Plain(a) == a && Plain(b) == b && Plain('%') == '%'
  {
  }

  lemma EscapeHead(s: string)
    requires |s| >= 3 && s[0] == '%' && TwoHex(s[1], s[2])
    ensures Hex(s[1]) >= 0 && Hex(s[2]) >= 0
    ensures var c := [ToByte(16 * Hex(s[1]) + Hex(s[2]))];
            && Decode(s) == c + Decode(s[3..]) && QsDecode(s) == c + QsDecode(s[3..])
            && HexDecode(s) == c + HexDecode(s[3..])
    ensures Plain(s[0]) == '%' && Plain(s[1]) == s[1] && Plain(s[2]) == s[2]
  {
    HexPair(s[1], s[2]);
    hide ToByte, Hex, Strtol, Plain, QsAccepts;
  }

  lemma PlainHead(s: string)
    requires s != "" && s[0] != '%'
    ensures Decode(s) == [Plain(s[0])] + Decode(s[1..]) && QsDecode(s) == [Plain(s[0])] + QsDecode(s[1..])
    ensures HexDecode(s) == [s[0]] + HexDecode(s[1..]) && Plain(s[0]) != '%'
  {
    hide Hex, ToByte, Strtol;
  }

  lemma SpacesTail(s: string, k: nat)
    requires k <= |s|
    ensures Spaces(s)[k..] == Spaces(s[k..])
  {
    hide Plain;
  }

  /** On well-formed strings all three decoders give the same text. */
  lemma {:induction false} DecodersAgree(s: string)
    requires WellFormed(s)
    ensures Decode(s) == QsDecode(s) == RustDecode(s)
    decreases |s|
  {
    hide WellFormed, Decode, QsDecode, HexDecode, Plain, Hex, ToByte, Strtol, TwoHex;
    if s == "" {
      NothingDecoded();
    } else {
      WellFormedHead(s);
      var k := if s[0] == '%' then 3 else 1;
      DecodersAgree(s[k..]);
      SpacesTail(s, k);
      if s[0] == '%' {
        EscapeHead(s);
        EscapeHead(Spaces(s));
      } else {
        PlainHead(s);
        PlainHead(Spaces(s));
      }
    }
  }

  lemma NothingDecoded()
    ensures Decode("") == QsDecode("") == HexDecode(Spaces("")) == ""
  {
  }

  /** What becomes of escapes that are not two hexadecimal digits, by example. */
  lemma EscapeExamples()
    ensures Decode("%-1") == [255 as char] && Decode("%zz") == [NUL] && Decode("%4") == "%4"
    ensures QsDecode("%zz") == "%zz" && QsDecode("%-1") == "%-1" && QsDecode("% 5") == [5 as char]
    ensures HexDecode("% 5") == "% 5" && HexDecode("%41") == "A"
  {
    EscapeAlone('-', '1');
    EscapeAlone('z', 'z');
    EscapeAlone(' ', '5');
    EscapeAlone('4', '1');
    OneAlone();
    StrtolExamples();
    hide Decode, QsDecode, HexDecode, Strtol, Hex;
  }

  lemma OneAlone()
    ensures Decode("%4") == "%4" && QsDecode("z") == "z" && QsDecode("-") == "-" && QsDecode("1") == "1"
  {
    assert "%4"[1..] == "4" && Decode("4") == "4";
  }

  lemma StrtolExamples()
    ensures Strtol('4', '1') == 0x41 && Strtol(' ', '5') == 5 && Strtol('+', 'a') == 10 && Strtol('-', '1') == -1
    ensures Strtol('5', 'z') == 5 && Strtol('z', 'z') == 0
    ensures !QsAccepts('z', 'z') && !QsAccepts('-', '1') && QsAccepts(' ', '5')
    ensures !TwoHex(' ', '5') && TwoHex('4', '1') && 16 * Hex('4') + Hex('1') == 0x41
  {
  }

  lemma EscapeAlone(a: char, b: char)
    ensures Decode(['%', a, b]) == [ToByte(Strtol(a, b))]
    ensures QsDecode(['%', a, b]) == if QsAccepts(a, b) then [ToByte(Strtol(a, b))]
                                     else "%" + QsDecode([a]) + QsDecode([b])
    ensures HexDecode(['%', a, b]) == if TwoHex(a, b) then [ToByte(16 * Hex(a) + Hex(b))] else "%" + [a] + [b]
  {
    var s := ['%', a, b];
    assert s[3..] == "" && s[1..] == [a, b] && [a, b][1..] == [b] && [b][1..] == "";
    assert HexDecode([b]) == [b] && HexDecode([a, b]) == [a] + [b];
    hide Strtol, Hex, ToByte, Plain;
  }

  // ---- percent-encoding ----------------------------------------------------------

  function HexChar(v: nat): (c: char)
    requires v < 16
    ensures Hex(c) == v
  {
    if v < 10 then ('0' as int + v) as char else ('A' as int + v - 10) as char
  }

  predicate Unreserved(c: char) {
    'a' <= c <= 'z' || 'A' <= c <= 'Z' || '0' <= c <= '9' || c == '-' || c == '.' || c == '_' || c == '~'
  }

  /** Percent-encoding (section 2.1 of RFC 3986), with '+' for a space. */
  function Encode(t: string): string
    requires forall c :: c in t ==> IsByte(c)
  {
    if t == "" then ""
    else
      assert t[0] in t && IsByte(t[0]);
      (if Unreserved(t[0]) then [t[0]]
       else if t[0] == ' ' then "+"
       else ['%', HexChar(t[0] as int / 16), HexChar(t[0] as int % 16)])
      + Encode(t[1..])
  }

  lemma EncodeStep(t: string)
    requires t != "" && forall c :: c in t ==> IsByte(c)
    ensures forall c :: c in t[1..] ==> IsByte(c)
    ensures var e, rest := Encode(t), Encode(t[1..]);
            if Unreserved(t[0]) || t[0] == ' ' then
              |e| > 0 && e[0] != '%' && Plain(e[0]) == t[0] && e[1..] == rest
            else
              |e| > 2 && e[0] == '%' && TwoHex(e[1], e[2]) && ToByte(Strtol(e[1], e[2])) == t[0] && e[3..] == rest
  {
    assert t[0] in t && forall c :: c in t[1..] ==> c in t;
    var v := t[0] as int;
    assert IsByte(t[0]);
    assert 16 * (v / 16) + v % 16 == v;
    HexNotBlank(HexChar(v / 16));
  }

  lemma HexNotBlank(c: char)
    requires Hex(c) >= 0
    ensures !IsSpace(c) && c != '+' && c != '-'
  {
  }

  /** Decoding inverts encoding, for every byte string and each of the three decoders. */
  lemma {:induction false} DecodeInvertsEncode(t: string)
    requires forall c :: c in t ==> IsByte(c)
    ensures WellFormed(Encode(t)) && Decode(Encode(t)) == t
    ensures QsDecode(Encode(t)) == t && RustDecode(Encode(t)) == t
  {
    EncodedDecodes(t);
    DecodersAgree(Encode(t));
  }

  lemma {:induction false} EncodedDecodes(t: string)
    requires forall c :: c in t ==> IsByte(c)
    ensures WellFormed(Encode(t)) && Decode(Encode(t)) == t
  {
    if t != "" {
      EncodeStep(t);
      EncodedDecodes(t[1..]);
      hide Encode, Unreserved, Hex, Strtol, ToByte, TwoHex, Plain, Decode, WellFormed;
      var e := Encode(t);
      assert t == [t[0]] + t[1..];
      DecodeAt(e, 0);
      assert e[0..] == e;
      WellFormedPrefix(e, if e[0] == '%' then 3 else 1);
    }
  }

  lemma WellFormedPrefix(e: string, k: nat)
    requires k == 1 || k == 3
    requires k <= |e| && WellFormed(e[k..])
    requires if k == 3 then e[0] == '%' && TwoHex(e[1], e[2]) else e[0] != '%'
    ensures WellFormed(e)
  {
    forall i | 0 <= i < |e| && e[i] == '%' ensures i + 2 < |e| && TwoHex(e[i + 1], e[i + 2]) {
      if i >= k {
        assert e[k..][i - k] == '%';
      }
    }
  }

  // ---- the code -------------------------------------------------------------------

  /** The text of a C string: everything before the first NUL. */
  function Cut(s: string): string {
    s[..IndexOf(s, NUL)]
  }

  predicate NulFree(s: string) {
    forall i :: 0 <= i < |s| ==> s[i] != NUL
  }

  lemma DecodeAt(s: string, k: nat)
    requires k < |s|
    ensures Decode(s[k..]) == if s[k] == '%' && k + 2 < |s|
                              then [ToByte(Strtol(s[k + 1], s[k + 2]))] + Decode(s[k + 3..])
                              else [Plain(s[k])] + Decode(s[k + 1..])
  {
    if k + 2 < |s| {
      assert s[k..][3..] == s[k + 3..];
    }
    assert s[k..][1..] == s[k + 1..];
  }

  lemma QsDecodeAt(s: string, k: nat)
    requires k < |s|
    ensures QsDecode(s[k..]) == if s[k] == '%' && k + 2 < |s| && QsAccepts(s[k + 1], s[k + 2])
                                then [ToByte(Strtol(s[k + 1], s[k + 2]))] + QsDecode(s[k + 3..])
                                else [Plain(s[k])] + QsDecode(s[k + 1..])
  {
    if k + 2 < |s| {
      assert s[k..][3..] == s[k + 3..];
    }
    assert s[k..][1..] == s[k + 1..];
  }

  lemma HexDecodeAt(s: string, k: nat)
    requires k < |s|
    ensures HexDecode(s[k..]) == if s[k] == '%' && k + 2 < |s| && TwoHex(s[k + 1], s[k + 2])
                                 then [ToByte(16 * Hex(s[k + 1]) + Hex(s[k + 2]))] + HexDecode(s[k + 3..])
                                 else [s[k]] + HexDecode(s[k + 1..])
  {
    if k + 2 < |s| {
      assert s[k..][3..] == s[k + 3..];
    }
    assert s[k..][1..] == s[k + 1..];
  }

  /** A C string occupies lo up to its NUL at hi. */
  ghost predicate CString(b: string, lo: nat, hi: nat) {
    lo <= hi < |b| && b[hi] == NUL && NulFree(b[lo..hi])
  }

  /** The C string at [lo, hi) of o has been replaced by its decoded text; the bytes outside
      [lo, hi) are as they were. */
  ghost predicate Decoded(o: string, b: string, lo: nat, hi: nat)
    requires lo <= hi < |o|
  {
    var d := Decode(o[lo..hi]);
    && |b| == |o| && b[lo..lo + |d|] == d && b[lo + |d|] == NUL
    && b[..lo] == o[..lo] && b[hi..] == o[hi..]
  }

  /** o[lo..hi] is decoded up to r, the result being written from lo up to w. */
  ghost predicate Decoding(o: string, b: string, lo: nat, hi: nat, w: nat, r: nat) {
    && CString(o, lo, hi) && lo <= w <= r <= hi && |b| == |o|
    && (forall i :: 0 <= i < lo || r <= i < |o| ==> b[i] == o[i])
    && Decode(o[lo..hi]) == b[lo..w] + Decode(o[r..hi])
  }

  /** The bytes still to be read are those of the text, up to the NUL. */
  lemma DecodePeek(o: string, b: string, lo: nat, hi: nat, w: nat, r: nat)
    requires Decoding(o, b, lo, hi, w, r) && b[r] != NUL
    ensures r < hi < |b| == |o| && b[r] == o[r] && b[r + 1] == o[r + 1]
    ensures (r + 1 < hi <==> b[r + 1] != NUL)
    ensures r + 1 < hi ==> b[r + 2] == o[r + 2] && (r + 2 < hi <==> b[r + 2] != NUL)
  {
    hide Decode;
    assert forall i :: lo <= i < hi ==> o[lo..hi][i - lo] == o[i] != NUL;
  }

  /** The byte that the escape or character at r stands for, and how much of the text it takes. */
  function Step(b: string, r: nat): (char, nat)
    requires r + 1 < |b| && (b[r + 1] != NUL ==> r + 2 < |b|)
  {
    if b[r] == '%' && b[r + 1] != NUL && b[r + 2] != NUL then (ToByte(Strtol(b[r + 1], b[r + 2])), 3)
    else (Plain(b[r]), 1)
  }

  lemma DecodeStep(o: string, b: string, lo: nat, hi: nat, w: nat, r: nat)
    requires Decoding(o, b, lo, hi, w, r) && b[r] != NUL
    ensures w <= r < hi < |b| && (b[r + 1] != NUL ==> r + 2 < |b|)
    ensures Decoding(o, b[w := Step(b, r).0], lo, hi, w + 1, r + Step(b, r).1)
  {
    hide Decode, ToByte, Strtol, Plain, CString;
    DecodePeek(o, b, lo, hi, w, r);
    DecodeAt(o[..hi], r);
    assert forall i :: r <= i < hi ==> o[..hi][i..] == o[i..hi];
    var (c, _) := Step(b, r);
    assert b[w := c][lo..w + 1] == b[lo..w] + [c];
  }

  lemma DecodingInside(o: string, b: string, lo: nat, hi: nat, w: nat, r: nat)
    requires Decoding(o, b, lo, hi, w, r)
    ensures lo <= w <= r <= hi < |b| == |o|
  {
  }

  lemma DecodeStart(o: string, lo: nat, hi: nat)
    requires CString(o, lo, hi)
    ensures Decoding(o, o, lo, hi, lo, lo) && lo <= hi < |o|
  {
  }

  lemma DecodeDone(o: string, b: string, lo: nat, hi: nat, w: nat, r: nat)
    requires Decoding(o, b, lo, hi, w, r) && b[r] == NUL
    ensures w < |b| && Decoded(o, b[w := NUL], lo, hi)
  {
    hide Decode;
    assert r == hi by {
      assert forall i :: lo <= i < hi ==> o[i] == o[lo..hi][i - lo];
    }
    NothingLeft(o[r..hi]);
    var d := Decode(o[lo..hi]);
    assert d == b[lo..w] + "" == b[lo..w];
    assert b[w := NUL][lo..w] == b[lo..w] && b[w := NUL][..lo] == b[..lo];
  }

  lemma NothingLeft(s: string)
    ensures s == "" ==> Decode(s) == ""
  {
  }

  method ReadStep(b: array<char>, r: nat) returns (c: char, k: nat)
    requires r + 1 < b.Length && (b[r + 1] != NUL ==> r + 2 < b.Length)
    ensures c == Step(b[..], r).0 && k == Step(b[..], r).1 && k > 0
  {
    hide Plain, Strtol, ToByte;
    c, k := Plain(b[r]), 1;
    if b[r] == '%' && b[r + 1] != NUL && b[r + 2] != NUL {
      c, k := ToByte(Strtol(b[r + 1], b[r + 2])), 3;
    }
  }

  /** One round of the decoding loop. */
  method DecodeOne(b: array<char>, lo: nat, ghost hi: nat, w: nat, r: nat, ghost o: string) returns (r': nat, w': nat)
    requires r < b.Length && b[r] != NUL && Decoding(o, b[..], lo, hi, w, r)
    modifies b
    ensures Decoding(o, b[..], lo, hi, w', r') && r < r' <= hi < b.Length
  {
    hide *;
    DecodeStep(o, b[..], lo, hi, w, r);
    var c, k := ReadStep(b, r);
    Poke(b, w, c);
    r', w' := r + k, w + 1;
    DecodingInside(o, b[..], lo, hi, w', r');
  }

  /** `url_decode` on the C string at [lo, hi): it writes only between lo and hi. */
  method UrlDecode(b: array<char>, lo: nat, ghost hi: nat)
    requires CString(b[..], lo, hi)
    modifies b
    ensures Decoded(old(b[..]), b[..], lo, hi)
  {
    ghost var o := b[..];
    hide *;
    var r: nat, w: nat := lo, lo;
    DecodeStart(o, lo, hi);
    while b[r] != NUL
      invariant Decoding(o, b[..], lo, hi, w, r) && r <= hi < b.Length
      decreases hi - r
    {
      r, w := DecodeOne(b, lo, hi, w, r, o);
    }
    DecodeDone(o, b[..], lo, hi, w, r);
    Poke(b, w, NUL);
  }

  /** `b[i] = c`. */
  method Poke(b: array<char>, i: nat, c: char)
    requires i < b.Length
    modifies b
    ensures b[..] == old(b[..])[i := c]
  {
    b[i] := c;
  }

  /** `hyle_qs_decode`: what fits of the full decode, and a NUL. */
  method QsDecodeInto(src: string, out: array<char>) returns (w: nat)
    requires out.Length > 0
    modifies out
    ensures w == Min(|QsDecode(src)|, out.Length - 1)
    ensures out[..w] == QsDecode(src)[..w] && out[w] == NUL
  {
    hide *;
    var r := 0;
    w := 0;
    QsStart(src, out[..]);
    while r < |src| && w + 1 < out.Length
      invariant r <= |src| && w + 1 <= out.Length && QsDecode(src) == out[..w] + QsDecode(src[r..])
      decreases |src| - r
    {
      ghost var was := out[..];
      QsDecodeAt(src, r);
      var c, k := Plain(src[r]), 1;
      if src[r] == '%' && r + 2 < |src| && QsAccepts(src[r + 1], src[r + 2]) {
        c, k := ToByte(Strtol(src[r + 1], src[r + 2])), 3;
      }
      Poke(out, w, c);
      Written(QsDecode(src), was, out[..], w, c, QsDecode(src[r..]), QsDecode(src[r + k..]));
      r, w := r + k, w + 1;
    }
    QsDone(src, out[..], w, r);
    ghost var was := out[..];
    Poke(out, w, NUL);
    assert out[..w] == was[..w];
  }

  lemma QsStart(src: string, out: string)
    ensures QsDecode(src) == out[..0] + QsDecode(src[0..])
  {
    assert src[0..] == src;
  }

  /** One more byte of d is in place. */
  lemma Written(d: string, was: string, now: string, w: nat, c: char, left: string, rest: string)
    requires w < |was| && now == was[w := c] && d == was[..w] + left && left == [c] + rest
    ensures d == now[..w + 1] + rest
  {
    assert now[..w + 1] == was[..w] + [c];
  }

  lemma QsDone(src: string, out: string, w: nat, r: nat)
    requires r <= |src| && w + 1 <= |out| && QsDecode(src) == out[..w] + QsDecode(src[r..])
    requires r == |src| || w + 1 == |out|
    ensures w == Min(|QsDecode(src)|, |out| - 1) && out[..w] == QsDecode(src)[..w]
  {
  }

  /** The raw value of the first piece that is `key=...`. */
  function FindParam(pieces: seq<string>, key: string): Option<string> {
    if pieces == [] then None
    else if IndexOf(pieces[0], '=') == |key| < |pieces[0]| && pieces[0][..|key|] == key then
      Some(pieces[0][|key| + 1..])
    else FindParam(pieces[1..], key)
  }

  /** The piece is the key, an equals sign, and the value. */
  predicate Gives(piece: string, key: string, v: string) {
    '=' !in key && piece == key + "=" + v
  }

  lemma GivesIff(piece: string, key: string, v: string)
    ensures Gives(piece, key, v) <==>
              IndexOf(piece, '=') == |key| < |piece| && piece[..|key|] == key && piece[|key| + 1..] == v
  {
    if Gives(piece, key, v) {
      assert piece[|key|] == '=' && forall i :: 0 <= i < |key| ==> piece[i] == key[i] && key[i] in key;
      assert IndexOf(piece, '=') == |key|;
    }
    if IndexOf(piece, '=') == |key| < |piece| && piece[..|key|] == key {
      assert piece == piece[..|key|] + [piece[|key|]] + piece[|key| + 1..];
      assert forall i :: 0 <= i < |key| ==> key[i] == piece[i] != '=';
    }
  }

  /** The first piece that gives the key a value decides. */
  lemma {:induction false} FindParamIs(pieces: seq<string>, key: string)
    ensures forall i, v :: 0 <= i < |pieces| && Gives(pieces[i], key, v)
                           && (forall j, w :: 0 <= j < i ==> !Gives(pieces[j], key, w)) ==>
              FindParam(pieces, key) == Some(v)
    ensures (forall i, v :: 0 <= i < |pieces| ==> !Gives(pieces[i], key, v)) ==> FindParam(pieces, key) == None
  {
    if pieces != [] {
      FindParamIs(pieces[1..], key);
      forall v ensures Gives(pieces[0], key, v) <==>
                         IndexOf(pieces[0], '=') == |key| < |pieces[0]| && pieces[0][..|key|] == key
                         && pieces[0][|key| + 1..] == v
      {
        GivesIff(pieces[0], key, v);
      }
      hide Gives, IndexOf;
      assert forall i :: 1 <= i < |pieces| ==> pieces[i] == pieces[1..][i - 1];
      assert forall i :: 0 <= i < |pieces[1..]| ==> pieces[1..][i] == pieces[i + 1];
    }
  }

  /** What `hyle_qs_param` leaves for a raw value, or for none. */
  ghost predicate Extracted(v: Option<string>, out: string, n: nat) {
    if v.None? || |out| == 0 then n == 0 && (|out| > 0 ==> out[0] == NUL)
    else n == Min(|QsDecode(v.value)|, |out| - 1) && out[..n] == QsDecode(v.value)[..n] && out[n] == NUL
  }

  lemma ParamStep(rest: string, key: string)
    ensures var amp := IndexOf(rest, '&'); var part := rest[..amp];
            FindParam(Split(rest, '&'), key)
            == if IndexOf(part, '=') == |key| < amp && part[..|key|] == key then Some(part[|key| + 1..])
               else if amp == |rest| then None
               else FindParam(Split(rest[amp + 1..], '&'), key)
  {
    var amp := IndexOf(rest, '&');
    assert amp < |rest| ==> Split(rest, '&')[1..] == Split(rest[amp + 1..], '&');
    assert amp == |rest| ==> rest[..amp] == rest && Split(rest, '&')[1..] == [];
  }

  /** `hyle_qs_param`: the decoded value of the first matching parameter, cut to the buffer. */
  method QsParam(qs: string, key: string, out: array<char>) returns (n: nat)
    modifies out
    ensures Extracted(FindParam(Split(qs, '&'), key), out[..], n)
  {
    ghost var found := FindParam(Split(qs, '&'), key);
    if out.Length == 0 {
      return 0;
    }
    out[0] := NUL;
    var rest := qs;
    hide Split, FindParam, QsDecode, IndexOf;
    while rest != ""
      invariant found == FindParam(Split(rest, '&'), key) && out[0] == NUL
      decreases |rest|
    {
      ParamStep(rest, key);
      var amp := IndexOf(rest, '&');
      var part := rest[..amp];
      if IndexOf(part, '=') == |key| && |key| < amp && part[..|key|] == key {
        n := QsDecodeInto(part[|key| + 1..], out);
        return;
      }
      rest := if amp < |rest| then rest[amp + 1..] else "";
      if rest == "" {
        ParamStep("", key);
      }
    }
    ParamStep("", key);
    return 0;
  }

  /** `percent_decode`. */
  method PercentDecode(s: string) returns (out: string)
    ensures out == RustDecode(s)
  {
    hide HexDecode, Hex, ToByte, Spaces;
    var bytes := Spaces(s);
    out := "";
    var i := 0;
    while i < |bytes|
      invariant i <= |bytes| && HexDecode(bytes) == out + HexDecode(bytes[i..])
      decreases |bytes| - i
    {
      HexDecodeAt(bytes, i);
      var c, k := bytes[i], 1;
      if bytes[i] == '%' && i + 2 < |bytes| && TwoHex(bytes[i + 1], bytes[i + 2]) {
        c, k := ToByte(16 * Hex(bytes[i + 1]) + Hex(bytes[i + 2])), 3;
      }
      assert out + ([c] + HexDecode(bytes[i + k..])) == (out + [c]) + HexDecode(bytes[i + k..]);
      out, i := out + [c], i + k;
    }
  }
}

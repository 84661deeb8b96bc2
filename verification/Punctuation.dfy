/** Search that does not see punctuation. */
module Punctuation {
  import opened Text
  import opened Matching

  const APOSTROPHE: char := 39 as char

  /** `isalnum(c) || c >= 0x80`. */
  predicate IsWord(c: char) {
    '0' <= c <= '9' || 'a' <= c <= 'z' || 'A' <= c <= 'Z' || c as int >= 0x80
  }

  function Step(acc: string, c: char): string {
    if IsWord(c) then acc + [c]
    else if c == APOSTROPHE then acc
    else if acc == "" || acc[|acc| - 1] != ' ' then acc + " "
    else acc
  }

  /** Words kept, apostrophes dropped, every other run of bytes one space. */
  function Spaced(s: string): string {
    if s == "" then "" else Step(Spaced(s[..|s| - 1]), s[|s| - 1])
  }

  function TrimEnd(s: string): (t: string)
    ensures t <= s && (t != "" ==> t[|t| - 1] != ' ')
    ensures forall i :: |t| <= i < |s| ==> s[i] == ' '
  {
    if s != "" && s[|s| - 1] == ' ' then TrimEnd(s[..|s| - 1]) else s
  }

  /** The normal form in a buffer of n bytes. */
  function Norm(n: nat, s: string): string
    requires n > 0
  {
    TrimEnd(Spaced(s)[..Min(|Spaced(s)|, n - 1)])
  }

  lemma SpacedStep(s: string, i: nat)
    requires i < |s|
    ensures Spaced(s[..i + 1]) == Step(Spaced(s[..i]), s[i])
  {
    assert s[..i + 1][..i] == s[..i];
  }

  /** More input only adds to the end. */
  lemma {:induction false} SpacedPrefix(x: string, y: string)
    ensures Spaced(x) <= Spaced(x + y)
  {
    if y == "" {
      assert x + y == x;
    } else {
      SpacedPrefix(x, y[..|y| - 1]);
      assert (x + y)[..|x + y| - 1] == x + y[..|y| - 1];
    }
  }

  predicate EndsWith(s: string, t: string) {
    |t| <= |s| && s[|s| - |t|..] == t
  }

  /** Whatever comes before, a text is spaced the same way. */
  lemma {:induction false} SpacedSuffix(x: string, s: string)
    ensures EndsWith(Spaced(x + s), Spaced(s))
  {
    if s == "" {
      assert x + s == x;
    } else {
      var t := s[..|s| - 1];
      SpacedSuffix(x, t);
      assert (x + s)[..|x + s| - 1] == x + t;
      StepSuffix(Spaced(x + t), Spaced(t), s[|s| - 1]);
    }
  }

  lemma StepSuffix(a: string, b: string, c: char)
    requires EndsWith(a, b)
    ensures EndsWith(Step(a, c), Step(b, c))
  {
    var p := a[..|a| - |b|];
    assert a == p + b;
    if b != "" {
      assert a[|a| - 1] == b[|b| - 1];
      assert p + (b + [c]) == (p + b) + [c] && p + (b + " ") == (p + b) + " ";
    }
  }

  /** A text's normal form, cut or not, occurs in that of any text around it which fits. */
  lemma NormOccurs(m: nat, n: nat, x: string, sub: string, y: string)
    requires m > 0 && |Spaced(x + sub + y)| < n
    ensures Occurs(Norm(m, sub), Norm(n, x + sub + y))
  {
    hide Spaced, TrimEnd, Occurs;
    var w, s := Spaced(x + sub + y), Spaced(sub);
    SpacedSuffix(x, sub);
    SpacedPrefix(x + sub, y);
    PrefixOfSuffix(s, Spaced(x + sub), w, TrimEnd(s[..Min(|s|, m - 1)]));
    assert w[..|w|] == w;
    TrimKeeps(w, |Spaced(x + sub)| - |s|, TrimEnd(s[..Min(|s|, m - 1)]));
  }

  lemma PrefixOfSuffix(s: string, xs: string, w: string, t: string)
    requires EndsWith(xs, s) && xs <= w && t <= s
    ensures OccursAt(t, w, |xs| - |s|)
  {
    assert xs[|xs| - |s|..][..|t|] == t;
  }

  lemma TrimKeeps(w: string, at: nat, t: string)
    requires OccursAt(t, w, at) && (t == "" || t[|t| - 1] != ' ')
    ensures Occurs(t, TrimEnd(w))
  {
    if t == "" {
      assert OccursAt(t, TrimEnd(w), 0);
    } else {
      assert w[at + |t| - 1] == w[at..at + |t|][|t| - 1];
      assert |TrimEnd(w)| >= at + |t|;
      assert TrimEnd(w)[at..at + |t|] == w[at..at + |t|];
      assert OccursAt(t, TrimEnd(w), at);
    }
  }

  /** Words and single spaces. */
  predicate Clean(s: string) {
    && (forall i :: 0 <= i < |s| ==> IsWord(s[i]) || s[i] == ' ')
    && (forall i :: 0 < i < |s| ==> s[i - 1] != ' ' || s[i] != ' ')
  }

  lemma {:induction false} SpacedClean(s: string)
    ensures Clean(Spaced(s))
  {
    if s != "" {
      SpacedClean(s[..|s| - 1]);
    }
  }

  lemma CleanFront(s: string)
    requires Clean(s) && s != ""
    ensures var front, c := s[..|s| - 1], s[|s| - 1];
            && Clean(front) && s == front + [c] && c != APOSTROPHE && (IsWord(c) || c == ' ')
            && (c == ' ' && front != "" ==> front[|front| - 1] != ' ')
  {
  }

  lemma {:induction false} CleanStays(s: string)
    requires Clean(s)
    ensures Spaced(s) == s
  {
    if s != "" {
      CleanFront(s);
      hide Clean, IsWord;
      CleanStays(s[..|s| - 1]);
    }
  }

  /** A normal form has no apostrophe, no two spaces together and no space at its end. */
  lemma NormIsNormal(n: nat, s: string)
    requires n > 0
    ensures Clean(Norm(n, s)) && APOSTROPHE !in Norm(n, s)
    ensures Norm(n, s) != "" ==> Norm(n, s)[|Norm(n, s)| - 1] != ' '
  {
    SpacedClean(s);
    hide Spaced;
  }

  /** And it is its own normal form. */
  lemma NormIsStable(n: nat, s: string)
    requires n > 0
    ensures Norm(n, Norm(n, s)) == Norm(n, s)
  {
    NormIsNormal(n, s);
    CleanStays(Norm(n, s));
    assert |Norm(n, s)| < n by { hide Spaced; }
    hide Spaced, Clean;
    NothingToTrim(Norm(n, s));
    NormOfFixed(n, Norm(n, s));
  }

  lemma NothingToTrim(t: string)
    requires t == "" || t[|t| - 1] != ' '
    ensures TrimEnd(t) == t
  {
  }

  lemma NormOfFixed(n: nat, t: string)
    requires |t| < n && Spaced(t) == t && TrimEnd(t) == t
    ensures Norm(n, t) == t
  {
    hide Spaced, TrimEnd;
    assert t[..|t|] == t;
  }

  /** The end of `punct_normalize`: step back over spaces. */
  method TrimBuffer(buf: array<char>, n: nat) returns (len: nat)
    requires n <= buf.Length
    ensures len <= n && buf[..len] == TrimEnd(buf[..n])
  {
    len := n;
    while len > 0 && buf[len - 1] == ' '
      invariant len <= n && TrimEnd(buf[..len]) == TrimEnd(buf[..n])
    {
      assert buf[..len][..len - 1] == buf[..len - 1];
      len := len - 1;
    }
  }

  /** `punct_normalize`: the normal form, then a NUL. */
  method PunctNormalize(out: array<char>, input: string) returns (len: nat)
    requires out.Length > 0
    modifies out
    ensures len < out.Length && out[..len] == Norm(out.Length, input) && out[len] == '\0'
  {
    SpacedNone();
    hide Spaced, TrimEnd;
    var n: nat := 0;
    var i := 0;
    assert input[..0] == "";
    while i < |input| && n + 1 < out.Length
      invariant 0 <= i <= |input| && n < out.Length && out[..n] == Spaced(input[..i])
    {
      SpacedStep(input, i);
      var c := input[i];
      if IsWord(c) {
        out[n] := c;
        n := n + 1;
      } else if c == APOSTROPHE {
      } else if n == 0 || out[n - 1] != ' ' {
        out[n] := ' ';
        n := n + 1;
      }
      i := i + 1;
    }
    Stopped(input, i, out.Length);
    len := TrimBuffer(out, n);
    out[len] := '\0';
  }

  lemma SpacedNone()
    ensures Spaced("") == ""
  {
  }

  // When the loop ends, by end of input or full buffer, the buffer holds the cut text.
  lemma Stopped(s: string, i: nat, n: nat)
    requires i <= |s| && |Spaced(s[..i])| < n && (i == |s| || |Spaced(s[..i])| + 1 == n)
    ensures Spaced(s[..i]) == Spaced(s)[..Min(|Spaced(s)|, n - 1)]
  {
    assert s == s[..i] + s[i..];
    SpacedPrefix(s[..i], s[i..]);
    assert i == |s| ==> s[..i] == s;
  }

  /** A query occurs in a text once both are normalised and folded. */
  predicate PunctMatches(fold: Fold, str: string, sub: string) {
    sub == "" ||
    var fsub, fstr := fold(SUB_SIZE, Norm(SUB_SIZE, sub)), fold(STR_SIZE, Norm(STR_SIZE, str));
    fsub.Some? && fstr.Some? && Occurs(fsub.value, fstr.value)
  }

  /** `ci_substr_punct`. */
  method CiSubstrPunct(fold: Fold, str: string, sub: string) returns (found: bool)
    ensures found <==> PunctMatches(fold, str, sub)
  {
    if sub == "" {
      return true;
    }
    var fsub := new char[SUB_SIZE](_ => '\0');
    var fstr := new char[STR_SIZE](_ => '\0');
    var n := PunctNormalize(fsub, sub);
    var k := PunctNormalize(fstr, str);
    hide Occurs, Norm;
    var a := fold(SUB_SIZE, fsub[..n]);
    var b := fold(STR_SIZE, fstr[..k]);
    if a.None? || b.None? {
      return false;
    }
    found := FindSub(b.value, a.value);
  }

  /** Punctuation search never misses a literal occurrence in a text that fits its buffer. */
  lemma PunctSearchFinds(fold: Fold, full: string -> string, x: string, sub: string, y: string)
    requires FoldLaw(fold, full) && |Spaced(x + sub + y)| < STR_SIZE
    requires fold(SUB_SIZE, Norm(SUB_SIZE, sub)).Some? && fold(STR_SIZE, Norm(STR_SIZE, x + sub + y)).Some?
    ensures PunctMatches(fold, x + sub + y, sub)
  {
    hide Occurs, Norm, FoldLaw;
    NormOccurs(SUB_SIZE, STR_SIZE, x, sub, y);
    FoldedOccurs(fold, full, SUB_SIZE, STR_SIZE, Norm(SUB_SIZE, sub), Norm(STR_SIZE, x + sub + y));
  }
}

/** Case-folded substring search.

    `lemma_fold` is a parameter: given the size of its output buffer and a text, it gives the
    folded text, or None when it fails. */
module Matching {
  import opened Wrappers

  type Fold = (nat, string) -> Option<string>

  const SUB_SIZE := 256
  const STR_SIZE := 4096

  // ---- substrings ----------------------------------------------------------------

  predicate OccursAt(sub: string, str: string, i: nat) {
    i + |sub| <= |str| && str[i..i + |sub|] == sub
  }

  predicate Occurs(sub: string, str: string) {
    exists i :: 0 <= i <= |str| && OccursAt(sub, str, i)
  }

  /** The scan shared by the `ci_substr` functions. */
  method FindSub(str: string, sub: string) returns (found: bool)
    ensures found <==> Occurs(sub, str)
  {
    if |sub| > |str| {
      return false;
    }
    for i := 0 to |str| - |sub| + 1
      invariant forall k :: 0 <= k < i ==> !OccursAt(sub, str, k)
    {
      var j := 0;
      while j < |sub| && str[i + j] == sub[j]
        invariant 0 <= j <= |sub| && str[i..i + j] == sub[..j]
      {
        assert str[i..i + j + 1] == str[i..i + j] + [str[i + j]];
        j := j + 1;
      }
      if j == |sub| {
        assert OccursAt(sub, str, i);
        return true;
      }
      assert str[i..i + |sub|][j] != sub[j];
    }
    found := false;
  }

  function LowerChar(c: char): char {
    if 'A' <= c <= 'Z' then (c as int + 32) as char else c
  }

  /** `tolower` of every byte. */
  function Lower(s: string): (t: string)
    ensures |t| == |s| && forall i :: 0 <= i < |s| ==> t[i] == LowerChar(s[i])
  {
    seq(|s|, i requires 0 <= i < |s| => LowerChar(s[i]))
  }

  /** A filter value occurs in a cell: folded if both fold, else bytewise without case. A
      missing or empty value occurs everywhere, any other nowhere in a missing cell. */
  predicate Matches(fold: Fold, str: Option<string>, sub: Option<string>) {
    sub.None? || sub.value == "" || (str.Some? && TextMatches(fold, str.value, sub.value))
  }

  predicate TextMatches(fold: Fold, str: string, sub: string) {
    var fsub, fstr := fold(SUB_SIZE, sub), fold(STR_SIZE, str);
    if fsub.None? || fstr.None? then Occurs(Lower(sub), Lower(str)) else Occurs(fsub.value, fstr.value)
  }

  /** `ci_substr`. */
  method CiSubstr(fold: Fold, str: Option<string>, sub: Option<string>) returns (found: bool)
    ensures found <==> Matches(fold, str, sub)
  {
    hide Occurs, Lower;
    if sub.None? || sub.value == "" {
      return true;
    }
    if str.None? {
      return false;
    }
    var fsub := fold(SUB_SIZE, sub.value);
    var fstr := fold(STR_SIZE, str.value);
    if fsub.None? || fstr.None? {
      found := FindSub(Lower(str.value), Lower(sub.value));
    } else {
      found := FindSub(fstr.value, fsub.value);
    }
  }

  /** `ci_substr_folded`: the value was folded before the row loop. */
  method CiSubstrFolded(fold: Fold, str: Option<string>, fsub: string, raw: string) returns (found: bool)
    requires raw != "" && fsub != "" && fold(SUB_SIZE, raw) == Some(fsub)
    ensures found <==> Matches(fold, str, Some(raw))
  {
    hide Occurs, Lower;
    if str.None? {
      return false;
    }
    var fstr := fold(STR_SIZE, str.value);
    if fstr.None? {
      found := FindSub(Lower(str.value), Lower(raw));
    } else {
      found := FindSub(fstr.value, fsub);
    }
  }

  /** A fold that succeeds gives the same text whatever the buffer, and works piece by piece. */
  ghost predicate FoldLaw(fold: Fold, full: string -> string) {
    && (forall n, s :: fold(n, s).Some? ==> fold(n, s).value == full(s))
    && (forall a, b :: full(a + b) == full(a) + full(b))
  }

  lemma FoldedOccurs(fold: Fold, full: string -> string, m: nat, n: nat, sub: string, str: string)
    requires FoldLaw(fold, full) && Occurs(sub, str) && fold(m, sub).Some? && fold(n, str).Some?
    ensures Occurs(fold(m, sub).value, fold(n, str).value)
  {
    var i :| 0 <= i <= |str| && OccursAt(sub, str, i);
    var x, y := str[..i], str[i + |sub|..];
    assert str == (x + sub) + y;
    assert full(str) == full(x + sub) + full(y) == full(x) + full(sub) + full(y);
    assert OccursAt(full(sub), full(str), |full(x)|);
  }

  /** Plain search never misses a literal occurrence. */
  lemma SearchFinds(fold: Fold, full: string -> string, x: string, sub: string, y: string)
    requires FoldLaw(fold, full)
    ensures Matches(fold, Some(x + sub + y), Some(sub))
  {
    hide Occurs, FoldLaw;
    assert Occurs(sub, x + sub + y) by { Within(x, sub, y); }
    if fold(SUB_SIZE, sub).Some? && fold(STR_SIZE, x + sub + y).Some? {
      FoldedOccurs(fold, full, SUB_SIZE, STR_SIZE, sub, x + sub + y);
    } else {
      LowerConcat(x, sub, y);
      Within(Lower(x), Lower(sub), Lower(y));
    }
  }

  lemma Within(x: string, sub: string, y: string)
    ensures Occurs(sub, x + sub + y)
  {
    assert OccursAt(sub, x + sub + y, |x|);
  }

  lemma LowerConcat(x: string, sub: string, y: string)
    ensures Lower(x + sub + y) == Lower(x) + Lower(sub) + Lower(y)
  {
  }
}

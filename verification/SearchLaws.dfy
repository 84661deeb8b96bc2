/** What the searches find, said of the texts alone. */
module SearchLaws {
  import opened Text
  import opened Matching
  import opened Punctuation
  import opened Tokens

  function SmallLetter(c: char): char {
    if 'A' <= c <= 'Z' then (c as int - 'A' as int + 'a' as int) as char else c
  }

  // ---- substrings ---------------------------------------------------------------------------

  predicate FoundAt(sub: string, str: string, i: int) {
    0 <= i && i + |sub| <= |str| && forall k :: 0 <= k < |sub| ==> str[i + k] == sub[k]
  }

  /** Letter by letter, capitals or not. */
  predicate AlikeAt(sub: string, str: string, i: int) {
    0 <= i && i + |sub| <= |str| && forall k :: 0 <= k < |sub| ==> SmallLetter(str[i + k]) == SmallLetter(sub[k])
  }

  /** A value of a filter is found in a text: folded if both fold into their buffers of 256 and 4096
      bytes, else without capitals. */
  ghost predicate TextFound(fold: Fold, str: string, sub: string) {
    var fsub, fstr := fold(256, sub), fold(4096, str);
    if fsub.Some? && fstr.Some? then exists i :: FoundAt(fsub.value, fstr.value, i)
    else exists i :: AlikeAt(sub, str, i)
  }

  lemma OccursIff(sub: string, str: string)
    ensures Occurs(sub, str) <==> exists i :: FoundAt(sub, str, i)
  {
    forall i | 0 <= i <= |str| ensures OccursAt(sub, str, i) <==> FoundAt(sub, str, i) {
      if OccursAt(sub, str, i) {
        var w := str[i..i + |sub|];
        assert forall k :: 0 <= k < |sub| ==> w[k] == str[i + k];
      }
    }
    hide OccursAt;
    if i :| FoundAt(sub, str, i) {
      assert OccursAt(sub, str, i);
    }
  }

  lemma TextFoundIff(fold: Fold, str: string, sub: string)
    ensures TextMatches(fold, str, sub) <==> TextFound(fold, str, sub)
  {
    var fsub, fstr := fold(256, sub), fold(4096, str);
    if fsub.Some? && fstr.Some? {
      OccursIff(fsub.value, fstr.value);
    } else {
      OccursIff(Lower(sub), Lower(str));
      assert forall i :: FoundAt(Lower(sub), Lower(str), i) <==> AlikeAt(sub, str, i);
    }
    hide Occurs, FoundAt, AlikeAt, Lower;
  }

  // ---- lines --------------------------------------------------------------------------------

  /** The text from a to b is one of its lines. */
  predicate LineAt(text: string, a: int, b: int) {
    && 0 <= a <= b <= |text| && (a == 0 || text[a - 1] == '\n') && (b == |text| || text[b] == '\n')
    && forall i :: a <= i < b ==> text[i] != '\n'
  }

  ghost predicate HasLine(text: string, line: string) {
    exists a, b :: LineAt(text, a, b) && text[a..b] == line
  }

  lemma {:induction false} TokenIsLine(text: string, v: string)
    ensures HasToken(text, v) <==> HasLine(text, v)
    decreases |text|
  {
    TokenStep(text, v);
    var i := IndexOf(text, '\n');
    if i < |text| {
      TokenIsLine(text[i + 1..], v);
      LaterLines(text, i, v);
    } else {
      OnlyLine(text, v);
    }
    hide HasToken, HasLine, IndexOf;
  }

  lemma OnlyLine(text: string, v: string)
    requires IndexOf(text, '\n') == |text|
    ensures HasLine(text, v) <==> v == text
  {
    assert forall i :: 0 <= i < |text| ==> text[i] != '\n';
    hide IndexOf;
    assert LineAt(text, 0, |text|) && text[0..|text|] == text;
    assert forall a, b :: LineAt(text, a, b) ==> a == 0 && b == |text|;
  }

  lemma LaterLines(text: string, i: nat, v: string)
    requires i == IndexOf(text, '\n') && i < |text|
    ensures HasLine(text, v) <==> v == text[..i] || HasLine(text[i + 1..], v)
  {
    var rest := text[i + 1..];
    assert text[i] == '\n' && forall k :: 0 <= k < i ==> text[k] != '\n';
    hide IndexOf;
    assert LineAt(text, 0, i) && text[0..i] == text[..i];
    if HasLine(text, v) {
      var a, b :| LineAt(text, a, b) && text[a..b] == v;
      if a > 0 {
        assert a > i by {
          assert text[a - 1] == '\n';
        }
        ShiftLine(text, i, a - i - 1, b - i - 1);
      } else {
        assert b == i;
      }
    }
    if HasLine(rest, v) {
      var a, b :| LineAt(rest, a, b) && rest[a..b] == v;
      ShiftLine(text, i, a, b);
      assert LineAt(text, a + i + 1, b + i + 1);
    }
  }

  lemma ShiftLine(text: string, i: nat, a: int, b: int)
    requires i < |text| && text[i] == '\n' && 0 <= a <= b <= |text| - i - 1
    ensures LineAt(text[i + 1..], a, b) <==> LineAt(text, a + i + 1, b + i + 1)
    ensures text[i + 1..][a..b] == text[a + i + 1..b + i + 1]
  {
    var rest := text[i + 1..];
    assert forall k :: 0 <= k < |rest| ==> rest[k] == text[k + i + 1];
    assert forall k :: i + 1 <= k < |text| ==> text[k] == rest[k - i - 1];
  }

  /** A filter on a multi-reference field that the view tests: a line of the cell, capitals or not. */
  ghost predicate LineAlike(text: string, v: string) {
    exists a, b :: LineAt(text, a, b) && b - a == |v| && AlikeAt(v, text, a)
  }

  lemma LineAlikeIff(text: string, v: string)
    ensures HasToken(Lower(text), Lower(v)) <==> LineAlike(text, v)
  {
    TokenIsLine(Lower(text), Lower(v));
    forall a, b | 0 <= a <= b <= |text|
      ensures LineAt(Lower(text), a, b) <==> LineAt(text, a, b)
      ensures Lower(text)[a..b] == Lower(v) <==> b - a == |v| && AlikeAt(v, text, a)
    {
      assert forall i :: 0 <= i < |text| ==> (Lower(text)[i] == '\n' <==> text[i] == '\n');
      if Lower(text)[a..b] == Lower(v) {
        assert forall k :: 0 <= k < |v| ==> Lower(text)[a..b][k] == Lower(text)[a + k];
      }
    }
    hide HasToken;
  }

  // ---- punctuation --------------------------------------------------------------------------

  /** Letters, digits, and bytes outside of ASCII. */
  predicate WordByte(c: char) {
    'a' <= c <= 'z' || 'A' <= c <= 'Z' || '0' <= c <= '9' || c as int >= 128
  }

  /** Between the last word byte and the end something other than apostrophes stands. */
  ghost predicate EndsInGap(s: string) {
    exists i :: GapAt(s, i)
  }

  predicate GapAt(s: string, i: int) {
    0 <= i < |s| && s[i] != '\'' && forall k :: i <= k < |s| ==> !WordByte(s[k])
  }

  lemma {:induction false} SpacedShort(s: string)
    ensures |Spaced(s)| <= |s|
  {
    if s != "" {
      SpacedShort(s[..|s| - 1]);
    }
  }

  lemma SpacedSnoc(s: string, c: char)
    ensures Spaced(s + [c]) == Step(Spaced(s), c) && Spaced("") == ""
  {
    assert (s + [c])[..|s|] == s;
  }

  lemma GapSnoc(s: string, c: char)
    ensures EndsInGap(s + [c]) <==> !WordByte(c) && (c != '\'' || EndsInGap(s))
    ensures !EndsInGap("")
  {
    var t := s + [c];
    assert t[|s|] == c && forall k :: 0 <= k < |s| ==> t[k] == s[k];
    hide WordByte;
    if EndsInGap(t) {
      var i :| GapAt(t, i);
      if i < |s| {
        assert GapAt(s, i);
      }
    }
    if !WordByte(c) && c != '\'' {
      assert GapAt(t, |s|);
    }
    if !WordByte(c) && EndsInGap(s) {
      var i :| GapAt(s, i);
      assert GapAt(t, i);
    }
  }

  /** The spaced text ends in a space exactly after a gap. */
  lemma {:induction false} GapIsSpace(s: string)
    ensures EndsInGap(s) <==> Spaced(s) != "" && Spaced(s)[|Spaced(s)| - 1] == ' '
  {
    if s == "" {
      GapSnoc("", 'a');
    } else {
      var front, c := s[..|s| - 1], s[|s| - 1];
      assert s == front + [c];
      GapIsSpace(front);
      GapSnoc(front, c);
      SpacedSnoc(front, c);
      hide Spaced, EndsInGap;
    }
  }

  lemma NormOfShort(n: nat, s: string)
    requires |s| < n
    ensures EndsInGap(s) ==> Spaced(s) != ""
    ensures Norm(n, s) == if EndsInGap(s) then Spaced(s)[..|Spaced(s)| - 1] else Spaced(s)
  {
    SpacedShort(s);
    SpacedClean(s);
    GapIsSpace(s);
    hide Spaced, EndsInGap;
    var w := Spaced(s);
    assert w[..|w|] == w;
    if w != "" && w[|w| - 1] == ' ' {
      assert |w| > 1 ==> w[|w| - 2] != ' ';
      NothingToTrim(w[..|w| - 1]);
    } else {
      NothingToTrim(w);
    }
  }

  /** The normal form grows by word bytes only, each after a space if there was a gap before it. */
  lemma NormGrows(n: nat, s: string, c: char)
    requires |s| + 1 < n
    ensures Norm(n, "") == ""
    ensures !WordByte(c) ==> Norm(n, s + [c]) == Norm(n, s)
    ensures WordByte(c) ==> Norm(n, s + [c]) == Norm(n, s) + (if EndsInGap(s) then " " else "") + [c]
  {
    NormOfShort(n, s);
    NormOfShort(n, s + [c]);
    NormOfShort(n, "");
    GapSnoc(s, c);
    SpacedSnoc(s, c);
    GapIsSpace(s);
    hide Spaced, EndsInGap, Norm;
  }

  /** A search text is found in a text if the folds of their normal forms, in buffers of 256 and 4096
      bytes, succeed and the one is in the other. */
  lemma SearchFoundIff(fold: Fold, str: string, sub: string)
    ensures PunctMatches(fold, str, sub) <==>
              sub == ""
              || var fsub, fstr := fold(256, Norm(256, sub)), fold(4096, Norm(4096, str));
                 fsub.Some? && fstr.Some? && exists i :: FoundAt(fsub.value, fstr.value, i)
  {
    var fsub, fstr := fold(256, Norm(256, sub)), fold(4096, Norm(4096, str));
    if fsub.Some? && fstr.Some? {
      OccursIff(fsub.value, fstr.value);
    }
    hide Norm, Occurs, FoundAt;
  }
}

/** Texts that are lists of tokens, one a line. */
module Tokens {
  import opened Text
  import opened Wrappers
  import opened Matching

  predicate HasToken(text: string, v: string) {
    v in Split(text, '\n')
  }

  predicate HasAnyToken(text: string, vals: seq<string>) {
    exists i :: 0 <= i < |vals| && HasToken(text, vals[i])
  }

  predicate HasAllTokens(text: string, vals: seq<string>) {
    forall i :: 0 <= i < |vals| ==> HasToken(text, vals[i])
  }

  lemma SplitFirst(text: string)
    ensures var i := IndexOf(text, '\n');
            && Split(text, '\n')[0] == text[..i]
            && (i == |text| ==> Split(text, '\n') == [text])
            && (i < |text| ==> Split(text, '\n')[1..] == Split(text[i + 1..], '\n'))
  {
  }

  /** One scan step: the value is the first token, or a later one. */
  lemma TokenStep(text: string, v: string)
    ensures var i := IndexOf(text, '\n');
            HasToken(text, v) <==> v == text[..i] || (i < |text| && HasToken(text[i + 1..], v))
  {
    SplitFirst(text);
    var i := IndexOf(text, '\n');
    assert Split(text, '\n') == [Split(text, '\n')[0]] + Split(text, '\n')[1..];
  }

  lemma NoToken(v: string)
    requires v != ""
    ensures !HasToken("", v)
  {
    SplitFirst("");
  }

  /** The token loop over one value. */
  method ScanTokens(text: string, v: string) returns (found: bool)
    requires v != ""
    ensures found <==> HasToken(text, v)
  {
    hide HasToken;
    var p := text;
    while p != ""
      invariant HasToken(text, v) <==> HasToken(p, v)
      decreases |p|
    {
      TokenStep(p, v);
      var nl := IndexOf(p, '\n');
      if p[..nl] == v {
        return true;
      }
      if nl == |p| {
        return false;
      }
      p := p[nl + 1..];
    }
    NoToken(v);
    found := false;
  }

  /** `multi_ref_token_match`: the loop is over tokens, and inside it over values. */
  method MultiRefTokenMatch(text: Option<string>, vals: seq<string>) returns (found: bool)
    requires "" !in vals
    ensures found <==> text.Some? && HasAnyToken(text.value, vals)
  {
    hide HasToken;
    if text.None? || vals == [] {
      return false;
    }
    var p := text.value;
    while p != ""
      invariant HasAnyToken(text.value, vals) <==> HasAnyToken(p, vals)
      decreases |p|
    {
      var nl := IndexOf(p, '\n');
      for i := 0 to |vals|
        invariant forall k :: 0 <= k < i ==> vals[k] != p[..nl]
      {
        if vals[i] == p[..nl] {
          TokenStep(p, vals[i]);
          return true;
        }
      }
      forall i | 0 <= i < |vals| ensures HasToken(p, vals[i]) <==> nl < |p| && HasToken(p[nl + 1..], vals[i]) {
        TokenStep(p, vals[i]);
      }
      if nl == |p| {
        return false;
      }
      p := p[nl + 1..];
    }
    forall i | 0 <= i < |vals| ensures !HasToken("", vals[i]) {
      NoToken(vals[i]);
    }
    found := false;
  }

  /** `multi_ref_all_tokens_match`. */
  method MultiRefAllTokensMatch(text: Option<string>, vals: seq<string>) returns (found: bool)
    requires "" !in vals
    ensures found <==> text.Some? && vals != [] && HasAllTokens(text.value, vals)
  {
    hide HasToken;
    if text.None? || vals == [] {
      return false;
    }
    for i := 0 to |vals|
      invariant forall k :: 0 <= k < i ==> HasToken(text.value, vals[k])
    {
      var here := ScanTokens(text.value, vals[i]);
      if !here {
        return false;
      }
    }
    found := true;
  }

  /** `token_match`: case-insensitive, and every text has a missing or empty value. */
  predicate TokenMatches(text: Option<string>, v: Option<string>) {
    v.None? || v.value == "" || (text.Some? && HasToken(Lower(text.value), Lower(v.value)))
  }

  lemma LowerNewline(s: string)
    ensures IndexOf(Lower(s), '\n') == IndexOf(s, '\n')
  {
    assert forall i :: 0 <= i < |s| ==> (Lower(s)[i] == '\n' <==> s[i] == '\n');
  }

  method TokenMatch(text: Option<string>, v: Option<string>) returns (found: bool)
    ensures found <==> TokenMatches(text, v)
  {
    hide HasToken;
    if v.None? || v.value == "" {
      return true;
    }
    if text.None? {
      return false;
    }
    var low := Lower(v.value);
    var p := text.value;
    while p != ""
      invariant HasToken(Lower(text.value), low) <==> HasToken(Lower(p), low)
      decreases |p|
    {
      var nl := IndexOf(p, '\n');
      LowerNewline(p);
      TokenStep(Lower(p), low);
      assert Lower(p)[..nl] == Lower(p[..nl]);
      assert nl < |p| ==> Lower(p)[nl + 1..] == Lower(p[nl + 1..]);
      if nl == |v.value| && Lower(p[..nl]) == low {
        return true;
      }
      if nl == |p| {
        return false;
      }
      p := p[nl + 1..];
    }
    assert Lower("") == "";
    NoToken(low);
    found := false;
  }
}

/** The Rust query-string parser on strings that were written: what was written comes back. */
module RustLaws {
  import opened Text
  import opened Wrappers
  import opened Decoders
  import opened RustQuery
  import opened QueryLaws
  import opened QueryFormat

  // ---- pairs --------------------------------------------------------------------------------

  lemma {:induction false} SplitMore(s: string, t: string)
    requires '&' !in t
    ensures Split(Joined(s, t), '&') == Split(s, '&') + [t]
    decreases |s|
  {
    hide *;
    JoinIndex(s, t);
    SplitStep(s);
    SplitStep(Joined(s, t));
    WholePiece(t);
    TailOf(s, t);
    var i := IndexOf(s, '&');
    if i < |s| {
      SplitMore(s[i + 1..], t);
      PieceFirst(s[..i], Split(s[i + 1..], '&'), t);
    }
  }

  lemma SplitStep(s: string)
    ensures var i := IndexOf(s, '&');
            Split(s, '&') == if i == |s| then [s] else [s[..i]] + Split(s[i + 1..], '&')
  {
    hide IndexOf;
  }

  lemma TailOf(s: string, t: string)
    ensures s[..|s|] == s && |Joined(s, t)| == |s| + 1 + |t| && Joined(s, t)[|s| + 1..] == t
    ensures forall p :: [p] + [t] == [p, t]
  {
  }

  lemma PieceFirst(p: string, pieces: seq<string>, t: string)
    ensures [p] + (pieces + [t]) == ([p] + pieces) + [t]
  {
  }

  lemma WholePiece(part: string)
    requires '&' !in part
    ensures Split(part, '&') == [part]
  {
    assert forall i :: 0 <= i < |part| ==> part[i] in part;
    assert IndexOf(part, '&') == |part|;
  }

  lemma NameEnds(name: string, value: string)
    requires '=' !in name
    ensures var s := name + "=" + value;
            IndexOf(s, '=') == |name| && s[..|name|] == name && s[|name| + 1..] == value
  {
    var s := name + "=" + value;
    assert s[|name|] == '=' && forall i :: 0 <= i < |name| ==> s[i] == name[i] && name[i] in name;
  }

  lemma NoAmpersand(a: string, b: string)
    requires '&' !in a && forall i :: 0 <= i < |b| ==> b[i] != '&'
    ensures '&' !in a + "=" + b
  {
  }

  lemma PairWritten(w: Written)
    requires Writable(w)
    ensures WriteOne(w) != "" && '&' !in WriteOne(w) && PairOf(WriteOne(w)) == Pair(w.name, w.text)
  {
    EncodedChars(w.text);
    DecodeInvertsEncode(w.text);
    NameEnds(w.name, Encode(w.text));
    NoAmpersand(w.name, Encode(w.text));
    hide Encode, RustDecode, IndexOf;
  }

  function PairsOf(ws: seq<Written>): (ps: seq<Pair>)
    ensures |ps| == |ws| && forall i :: 0 <= i < |ws| ==> ps[i] == Pair(ws[i].name, ws[i].text)
  {
    seq(|ws|, i requires 0 <= i < |ws| => Pair(ws[i].name, ws[i].text))
  }

  /** A written string is split and decoded to what was written. */
  lemma {:induction false} WrittenPairs(ws: seq<Written>)
    requires AllWritable(ws)
    ensures Pairs(Split(Write(ws), '&')) == PairsOf(ws)
  {
    if ws == [] {
      assert Split("", '&') == [""] && [""][..0] == [];
    } else {
      hide *;
      var front, last := ws[..|ws| - 1], ws[|ws| - 1];
      WriteSnoc(ws);
      PairWritten(last);
      WrittenPairs(front);
      PairsSnoc(front, last);
      if front == [] {
        OnePiece(WriteOne(last));
        NothingPaired();
      } else {
        SplitMore(Write(front), WriteOne(last));
        PiecesSnoc(Split(Write(front), '&'), WriteOne(last));
      }
      assert ws == front + [last];
    }
  }

  lemma PairsSnoc(front: seq<Written>, last: Written)
    ensures PairsOf(front + [last]) == PairsOf(front) + [Pair(last.name, last.text)] && PairsOf([]) == []
  {
  }

  lemma PiecesSnoc(pieces: seq<string>, part: string)
    requires part != ""
    ensures Pairs(pieces + [part]) == Pairs(pieces) + [PairOf(part)]
  {
    assert (pieces + [part])[..|pieces|] == pieces;
    hide PairOf;
  }

  lemma OnePiece(part: string)
    requires part != "" && '&' !in part
    ensures Split(part, '&') == [part] && Pairs([part]) == [PairOf(part)]
  {
    WholePiece(part);
    assert [part][..0] == [];
    hide PairOf, Split;
  }

  lemma NothingPaired()
    ensures PairsOf([]) == []
  {
  }

  // ---- numbers ------------------------------------------------------------------------------

  /** A page number is read up to 64 bits, with or without a plus sign. */
  lemma UsizeOfDigits(n: nat)
    ensures ParseUsize(Digits(n)) == (if n < 0x1_0000_0000_0000_0000 then Some(n) else None)
    ensures ParseUsize("+" + Digits(n)) == ParseUsize(Digits(n))
    ensures ParseUsize("") == ParseUsize("+") == None
  {
    ValOfDigits(n);
    assert IsDigit(Digits(n)[0]);
    hide Digits, Val;
    assert ("+" + Digits(n))[1..] == Digits(n);
    assert "+"[1..] == "";
  }

  /** Anything but digits after it makes a text no number. */
  lemma NotUsize(s: string, i: nat)
    requires i < |s| && !IsDigit(s[i]) && (i > 0 || s[0] != '+')
    ensures ParseUsize(s) == None
  {
    var d := if s[0] == '+' then s[1..] else s;
    assert s[0] == '+' ==> d[i - 1] == s[i];
    hide Val;
  }

  /** The last number given for the key. */
  predicate NumberAt(ps: seq<Pair>, key: string, i: int) {
    && 0 <= i < |ps| && ps[i].key == key && ParseUsize(ps[i].value).Some?
    && forall j :: i < j < |ps| && ps[j].key == key ==> ParseUsize(ps[j].value).None?
  }

  lemma NumberSnoc(ps: seq<Pair>, p: Pair, key: string, i: int)
    ensures NumberAt(ps + [p], key, i)
            <==> if p.key == key && ParseUsize(p.value).Some? then i == |ps| else NumberAt(ps, key, i)
  {
    var all := ps + [p];
    assert all[|ps|] == p && forall k :: 0 <= k < |ps| ==> all[k] == ps[k];
    hide ParseUsize;
  }

  /** It is the page, at least 1; without one the default is. */
  lemma {:induction false} LastNumberIs(ps: seq<Pair>, key: string, default: nat)
    ensures forall i :: NumberAt(ps, key, i) ==>
              LastNumber(ps, key, default)
              == var n := ParseUsize(ps[i].value).value; if n == 0 then 1 else n
    ensures (forall i :: !NumberAt(ps, key, i)) ==> LastNumber(ps, key, default) == default
  {
    if ps != [] {
      var front, p := ps[..|ps| - 1], ps[|ps| - 1];
      assert ps == front + [p];
      LastNumberIs(front, key, default);
      forall i
        ensures NumberAt(ps, key, i)
                <==> if p.key == key && ParseUsize(p.value).Some? then i == |front| else NumberAt(front, key, i)
      {
        NumberSnoc(front, p, key, i);
      }
      hide ParseUsize, NumberAt;
      if p.key == key && ParseUsize(p.value).Some? {
        assert NumberAt(ps, key, |front|);
      } else if i :| NumberAt(front, key, i) {
        assert NumberAt(ps, key, i);
      }
    }
  }

  // ---- filters ------------------------------------------------------------------------------

  predicate FreshKeys(fs: seq<Pair>) {
    && (forall i :: 0 <= i < |fs| ==> fs[i].key != "page" && fs[i].key != "per_page" && fs[i].value != "")
    && forall i, j :: 0 <= i < j < |fs| ==> fs[i].key != fs[j].key
  }

  /** The filters collected are these. */
  ghost predicate Collected(ps: seq<Pair>, fs: seq<Pair>) {
    && |KeysOf(ps)| == |fs| && (forall i :: 0 <= i < |fs| ==> KeysOf(ps)[i] == fs[i].key)
    && (forall i :: 0 <= i < |fs| ==> ValuesOf(ps, fs[i].key) == [fs[i].value])
    && forall k :: !IsPaging(k) && (forall i :: 0 <= i < |fs| ==> fs[i].key != k) ==> ValuesOf(ps, k) == []
  }

  lemma CollectedMore(ps: seq<Pair>, fs: seq<Pair>, f: Pair)
    requires Collected(ps, fs) && !IsPaging(f.key) && f.value != "" && forall i :: 0 <= i < |fs| ==> fs[i].key != f.key
    ensures Collected(ps + [f], fs + [f])
  {
    PairSnoc(ps, f);
    hide KeysOf, ValuesOf, IsPaging;
    var more := fs + [f];
    assert f.key !in KeysOf(ps);
    assert more[|fs|] == f && forall i :: 0 <= i < |fs| ==> more[i] == fs[i];
    assert ValuesOf(ps + [f], f.key) == [] + [f.value] == [f.value];
    forall k | !IsPaging(k) && (forall i :: 0 <= i < |more| ==> more[i].key != k) ensures ValuesOf(ps + [f], k) == [] {
      assert more[|fs|].key != k;
      forall i | 0 <= i < |fs| ensures fs[i].key != k {
        assert more[i].key != k;
      }
    }
  }

  lemma {:induction false} FreshPairs(ps: seq<Pair>, fs: seq<Pair>)
    requires FreshKeys(fs) && forall p :: p in ps ==> IsPaging(p.key)
    ensures Collected(ps + fs, fs)
  {
    if fs == [] {
      assert ps + fs == ps;
      NoFilters(ps);
    } else {
      hide *;
      var front, f := fs[..|fs| - 1], fs[|fs| - 1];
      FreshFront(fs);
      FreshPairs(ps, front);
      CollectedMore(ps + front, front, f);
      AllButLast(ps, fs);
    }
  }

  lemma AllButLast(ps: seq<Pair>, fs: seq<Pair>)
    requires fs != []
    ensures ps + fs == (ps + fs[..|fs| - 1]) + [fs[|fs| - 1]] && fs == fs[..|fs| - 1] + [fs[|fs| - 1]]
  {
  }

  lemma FreshFront(fs: seq<Pair>)
    requires FreshKeys(fs) && fs != []
    ensures var front, f := fs[..|fs| - 1], fs[|fs| - 1];
            && FreshKeys(front) && !IsPaging(f.key) && f.value != ""
            && forall i :: 0 <= i < |front| ==> front[i].key != f.key
  {
  }

  lemma {:induction false} NoFilters(ps: seq<Pair>)
    requires forall p :: p in ps ==> IsPaging(p.key)
    ensures KeysOf(ps) == [] && forall k :: !IsPaging(k) ==> ValuesOf(ps, k) == []
  {
    if ps != [] {
      assert ps[|ps| - 1] in ps && forall p :: p in ps[..|ps| - 1] ==> p in ps;
      NoFilters(ps[..|ps| - 1]);
    }
  }

  lemma JoinedBack(ps: seq<Pair>, fs: seq<Pair>, filters: seq<Pair>)
    requires FreshKeys(fs) && forall p :: p in ps ==> IsPaging(p.key)
    requires Joins(ps + fs, filters)
    ensures filters == fs
  {
    FreshPairs(ps, fs);
    forall v ensures Commas([v]) == v {
    }
    hide KeysOf, ValuesOf, FreshKeys, Commas;
  }

  /** One pair more goes to the end of the filter of its key after a comma, or becomes the last
      filter; paging pairs and pairs without a value change no filter. */
  lemma OneMorePair(ps: seq<Pair>, p: Pair, filters: seq<Pair>, more: seq<Pair>)
    requires Joins(ps, filters) && Joins(ps + [p], more)
    ensures p.key == "page" || p.key == "per_page" || p.value == "" ==> more == filters
    ensures p.key != "page" && p.key != "per_page" && p.value != "" ==>
              if exists i :: 0 <= i < |filters| && filters[i].key == p.key then
                exists i :: 0 <= i < |filters| && filters[i].key == p.key
                            && more == filters[i := Pair(p.key, filters[i].value + "," + p.value)]
              else more == filters + [p]
  {
    JoinsStep(ps, p, filters);
    var at := EntryOf(filters, p.key);
    var after := if IsPaging(p.key) || p.value == "" then filters
                 else if at < |filters| then filters[at := Pair(p.key, filters[at].value + "," + p.value)]
                 else filters + [p];
    JoinsOnce(ps + [p], more, after);
    hide Joins, EntryOf;
  }

  lemma JoinsOnce(ps: seq<Pair>, a: seq<Pair>, b: seq<Pair>)
    requires Joins(ps, a) && Joins(ps, b)
    ensures a == b
  {
    hide KeysOf, ValuesOf, Commas;
  }

  /** Paging numbers and filters of different keys, written as a query string. */
  function PartsFor(page: nat, perPage: nat, fs: seq<Pair>): seq<Written> {
    [Written("page", Digits(page)), Written("per_page", Digits(perPage))]
    + seq(|fs|, i requires 0 <= i < |fs| => Written(fs[i].key, fs[i].value))
  }

  lemma PartsAre(page: nat, perPage: nat, fs: seq<Pair>)
    requires forall i :: 0 <= i < |fs| ==> Writable(Written(fs[i].key, fs[i].value))
    ensures AllWritable(PartsFor(page, perPage, fs))
  {
    hide Digits, Writable;
    DigitsWritable(page, "page");
    DigitsWritable(perPage, "per_page");
  }

  lemma PartsPair(page: nat, perPage: nat, fs: seq<Pair>)
    ensures PairsOf(PartsFor(page, perPage, fs))
            == [Pair("page", Digits(page)), Pair("per_page", Digits(perPage))] + fs
  {
    hide Digits;
  }

  lemma PagingKeys(a: string, b: string)
    ensures forall p :: p in [Pair("page", a), Pair("per_page", b)] ==> IsPaging(p.key)
  {
  }

  lemma NumbersBack(page: nat, perPage: nat, fs: seq<Pair>, default: nat)
    requires FreshKeys(fs) && 0 < page < 0x1_0000_0000_0000_0000 && 0 < perPage < 0x1_0000_0000_0000_0000
    ensures var ps := [Pair("page", Digits(page)), Pair("per_page", Digits(perPage))] + fs;
            LastNumber(ps, "page", 1) == page && LastNumber(ps, "per_page", default) == perPage
  {
    var ps := [Pair("page", Digits(page)), Pair("per_page", Digits(perPage))] + fs;
    UsizeOfDigits(page);
    UsizeOfDigits(perPage);
    hide ParseUsize, Digits;
    assert ps[0].key == "page" && ps[1].key == "per_page" && forall i :: 2 <= i < |ps| ==> ps[i] == fs[i - 2];
    assert NumberAt(ps, "page", 0) && NumberAt(ps, "per_page", 1);
    hide FreshKeys, NumberAt;
    LastNumberIs(ps, "page", 1);
    LastNumberIs(ps, "per_page", default);
  }

  /** Parsing a written query string gives back the numbers and the filters that were written. */
  method ParseWritten(page: nat, perPage: nat, fs: seq<Pair>, default: nat)
    returns (page': nat, perPage': nat, filters: seq<Pair>)
    requires 0 < page < 0x1_0000_0000_0000_0000 && 0 < perPage < 0x1_0000_0000_0000_0000
    requires FreshKeys(fs) && forall i :: 0 <= i < |fs| ==> Writable(Written(fs[i].key, fs[i].value))
    ensures page' == page && perPage' == perPage && filters == fs
  {
    hide *;
    PartsAre(page, perPage, fs);
    PartsPair(page, perPage, fs);
    var ws := PartsFor(page, perPage, fs);
    WrittenPairs(ws);
    page', perPage', filters := ParseQueryParams(Write(ws), default);
    NumbersBack(page, perPage, fs, default);
    ghost var ps := [Pair("page", Digits(page)), Pair("per_page", Digits(perPage))];
    PagingKeys(ps[0].value, ps[1].value);
    JoinedBack(ps, fs, filters);
  }
}

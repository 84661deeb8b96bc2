/** The Rust query-string parser: page numbers, and filters with repeated keys joined. */
module RustQuery {
  import opened Collections
  import opened Text
  import opened Wrappers
  import opened Decoders

  const USIZE_MAX := 0xffff_ffff_ffff_ffff

  datatype Pair = Pair(key: string, value: string)

  /** One part: the raw key, and the decoded value. */
  function PairOf(part: string): Pair {
    var eq := IndexOf(part, '=');
    if eq < |part| then Pair(part[..eq], RustDecode(part[eq + 1..])) else Pair(part, RustDecode(""))
  }

  /** The parts between '&'s that are not empty. */
  function Pairs(pieces: seq<string>): seq<Pair> {
    if pieces == [] then []
    else
      var before, last := Pairs(pieces[..|pieces| - 1]), pieces[|pieces| - 1];
      if last == "" then before else before + [PairOf(last)]
  }

  /** `parse::<usize>()`: digits after an optional plus sign, below the limit. */
  function ParseUsize(s: string): Option<nat> {
    var d := if s != "" && s[0] == '+' then s[1..] else s;
    if d != "" && AllDigits(d) && Val(d) <= USIZE_MAX then Some(Val(d)) else None
  }

  /** The last number given for a key, at least 1, or the default. */
  function LastNumber(ps: seq<Pair>, key: string, default: nat): nat {
    if ps == [] then default
    else
      var p := ps[|ps| - 1];
      if p.key == key && ParseUsize(p.value).Some?
      then (if ParseUsize(p.value).value == 0 then 1 else ParseUsize(p.value).value)
      else LastNumber(ps[..|ps| - 1], key, default)
  }

  predicate IsPaging(key: string) {
    key == "page" || key == "per_page"
  }

  /** The values given for a key, in order, without the empty ones. */
  function ValuesOf(ps: seq<Pair>, key: string): seq<string> {
    if ps == [] then []
    else
      var before, p := ValuesOf(ps[..|ps| - 1], key), ps[|ps| - 1];
      if p.key == key && p.value != "" then before + [p.value] else before
  }

  /** The texts with commas between them. */
  function Commas(values: seq<string>): string {
    if values == [] then ""
    else if |values| == 1 then values[0]
    else Commas(values[..|values| - 1]) + "," + values[|values| - 1]
  }

  /** The keys but the paging ones that are given a value, in order of their first one. */
  function KeysOf(ps: seq<Pair>): seq<string> {
    if ps == [] then []
    else
      var before, p := KeysOf(ps[..|ps| - 1]), ps[|ps| - 1];
      if IsPaging(p.key) || p.value == "" || p.key in before then before else before + [p.key]
  }

  /** Each key once, and all that are given a value. */
  lemma {:induction false} KeysOfIff(ps: seq<Pair>)
    ensures Distinct(KeysOf(ps))
    ensures forall k :: k in KeysOf(ps) <==> !IsPaging(k) && ValuesOf(ps, k) != []
  {
    if ps != [] {
      KeysOfIff(ps[..|ps| - 1]);
    }
  }

  /** The filters, in order of insertion: each key has its values joined. */
  ghost predicate Joins(ps: seq<Pair>, filters: seq<Pair>) {
    |filters| == |KeysOf(ps)| &&
    forall i :: 0 <= i < |filters| ==> filters[i] == Pair(KeysOf(ps)[i], Commas(ValuesOf(ps, KeysOf(ps)[i])))
  }

  /** Where the filter of a key is, or the number of filters. */
  function EntryOf(filters: seq<Pair>, key: string): (i: nat)
    ensures i <= |filters| && (i < |filters| ==> filters[i].key == key)
    ensures forall k :: 0 <= k < i ==> filters[k].key != key
  {
    if filters == [] || filters[0].key == key then 0
    else
      assert forall k :: 0 < k < |filters| ==> filters[k] == filters[1..][k - 1];
      1 + EntryOf(filters[1..], key)
  }

  /** `parse_query_params`. */
  method ParseQueryParams(s: string, defaultPerPage: nat) returns (page: nat, perPage: nat, filters: seq<Pair>)
    ensures var ps := Pairs(Split(s, '&'));
            && page == LastNumber(ps, "page", 1) && perPage == LastNumber(ps, "per_page", defaultPerPage)
            && Joins(ps, filters)
  {
    page, perPage, filters := 1, defaultPerPage, [];
    var pieces := Split(s, '&');
    assert pieces[..0] == [] && pieces[..|pieces|] == pieces;
    hide RustDecode, Val, AllDigits, Joins, ParseUsize, EntryOf, Commas, PairOf, Split;
    NoneJoined();
    for i := 0 to |pieces|
      invariant page == LastNumber(Pairs(pieces[..i]), "page", 1)
      invariant perPage == LastNumber(Pairs(pieces[..i]), "per_page", defaultPerPage)
      invariant Joins(Pairs(pieces[..i]), filters)
    {
      PairsTo(pieces, i);
      if pieces[i] == "" {
        continue;
      }
      ghost var ps := Pairs(pieces[..i]);
      hide Pairs, LastNumber;
      page, perPage, filters := TakePair(ps, PairOf(pieces[i]), page, perPage, filters, defaultPerPage);
    }
  }

  lemma NoneJoined()
    ensures Joins([], [])
  {
  }

  lemma PairsTo(pieces: seq<string>, i: nat)
    requires i < |pieces|
    ensures Pairs(pieces[..i + 1])
            == if pieces[i] == "" then Pairs(pieces[..i]) else Pairs(pieces[..i]) + [PairOf(pieces[i])]
  {
    assert pieces[..i + 1][..i] == pieces[..i];
  }

  lemma NumberSnoc(ps: seq<Pair>, p: Pair, key: string, default: nat)
    ensures LastNumber(ps + [p], key, default)
            == if p.key == key && ParseUsize(p.value).Some?
               then (if ParseUsize(p.value).value == 0 then 1 else ParseUsize(p.value).value)
               else LastNumber(ps, key, default)
  {
    hide ParseUsize;
    assert (ps + [p])[..|ps|] == ps;
  }

  /** One round of the loop. */
  method TakePair(ghost ps: seq<Pair>, p: Pair, page: nat, perPage: nat, filters: seq<Pair>, ghost default: nat)
    returns (page': nat, perPage': nat, filters': seq<Pair>)
    requires page == LastNumber(ps, "page", 1) && perPage == LastNumber(ps, "per_page", default) && Joins(ps, filters)
    ensures page' == LastNumber(ps + [p], "page", 1) && perPage' == LastNumber(ps + [p], "per_page", default)
    ensures Joins(ps + [p], filters')
  {
    hide LastNumber, ParseUsize, Joins, EntryOf;
    JoinsStep(ps, p, filters);
    NumberSnoc(ps, p, "page", 1);
    NumberSnoc(ps, p, "per_page", default);
    page', perPage', filters' := page, perPage, filters;
    if p.key == "page" {
      var n := ParseUsize(p.value);
      if n.Some? {
        page' := if n.value == 0 then 1 else n.value;
      }
    } else if p.key == "per_page" {
      var n := ParseUsize(p.value);
      if n.Some? {
        perPage' := if n.value == 0 then 1 else n.value;
      }
    } else if p.value != "" {
      var at := EntryOf(filters, p.key);
      if at < |filters| {
        filters' := filters[at := Pair(p.key, filters[at].value + "," + p.value)];
      } else {
        filters' := filters + [p];
      }
    }
  }

  lemma JoinsStep(ps: seq<Pair>, p: Pair, filters: seq<Pair>)
    requires Joins(ps, filters)
    ensures var at := EntryOf(filters, p.key);
            var after := if IsPaging(p.key) || p.value == "" then filters
                         else if at < |filters| then filters[at := Pair(p.key, filters[at].value + "," + p.value)]
                         else filters + [p];
            Joins(ps + [p], after)
  {
    PairSnoc(ps, p);
    EntryIsKey(ps, p.key, filters);
    hide ValuesOf, KeysOf, EntryOf, Commas, Joins;
    if IsPaging(p.key) || p.value == "" {
      JoinsSame(ps, p, filters);
    } else if p.key in KeysOf(ps) {
      JoinsAgain(ps, p, filters, EntryOf(filters, p.key));
    } else {
      JoinsNew(ps, p, filters);
    }
  }

  lemma JoinsSame(ps: seq<Pair>, p: Pair, filters: seq<Pair>)
    requires Joins(ps, filters) && (IsPaging(p.key) || p.value == "")
    ensures Joins(ps + [p], filters)
  {
    KeysOfIff(ps);
    PairSnoc(ps, p);
    hide ValuesOf, KeysOf, Commas;
    var keys := KeysOf(ps);
    assert forall i :: 0 <= i < |keys| ==> keys[i] in keys;
  }

  lemma JoinsAgain(ps: seq<Pair>, p: Pair, filters: seq<Pair>, at: nat)
    requires Joins(ps, filters) && !IsPaging(p.key) && p.value != "" && at < |filters| && filters[at].key == p.key
    ensures Joins(ps + [p], filters[at := Pair(p.key, filters[at].value + "," + p.value)])
  {
    KeysOfIff(ps);
    PairSnoc(ps, p);
    hide ValuesOf, KeysOf, Commas;
    var keys := KeysOf(ps);
    assert keys[at] == p.key && keys[at] in keys;
    CommasSnoc(ValuesOf(ps, p.key), p.value);
  }

  lemma JoinsNew(ps: seq<Pair>, p: Pair, filters: seq<Pair>)
    requires Joins(ps, filters) && !IsPaging(p.key) && p.value != "" && p.key !in KeysOf(ps)
    ensures Joins(ps + [p], filters + [p])
  {
    KeysOfIff(ps);
    PairSnoc(ps, p);
    hide ValuesOf, KeysOf, Commas;
    CommasSnoc(ValuesOf(ps, p.key), p.value);
    var keys := KeysOf(ps);
    assert forall i :: 0 <= i < |keys| ==> keys[i] in keys;
  }

  lemma PairSnoc(ps: seq<Pair>, p: Pair)
    ensures forall k :: ValuesOf(ps + [p], k)
                        == if p.key == k && p.value != "" then ValuesOf(ps, k) + [p.value] else ValuesOf(ps, k)
    ensures KeysOf(ps + [p])
            == if IsPaging(p.key) || p.value == "" || p.key in KeysOf(ps) then KeysOf(ps) else KeysOf(ps) + [p.key]
  {
    assert (ps + [p])[..|ps|] == ps;
  }

  lemma EntryIsKey(ps: seq<Pair>, key: string, filters: seq<Pair>)
    requires Joins(ps, filters)
    ensures EntryOf(filters, key) < |filters| <==> key in KeysOf(ps)
  {
    hide KeysOf, EntryOf, Commas, ValuesOf;
    var keys := KeysOf(ps);
    assert forall i :: 0 <= i < |keys| ==> filters[i].key == keys[i];
  }

  lemma CommasSnoc(values: seq<string>, v: string)
    ensures Commas(values + [v]) == if values == [] then v else Commas(values) + "," + v
  {
    assert (values + [v])[..|values|] == values;
  }
}

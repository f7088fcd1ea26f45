/** Data of the city/state repair script: database rows, the reference package, and
    grouping by a string key. Text normalisation and the package are parameters. */
module GeoData {

  datatype GeoState = GeoState(id: int, name: string, countryCode: string, isoCode: string)

  datatype GeoCity = GeoCity(id: int, name: string, stateId: int, stateCode: string, countryCode: string)

  datatype PkgState = PkgState(name: string, isoCode: string)

  datatype PkgCity = PkgCity(name: string, stateCode: string)

  /** The country-state-city package and the three text normalisers. */
  datatype Atlas = Atlas(
    statesOf: string -> seq<PkgState>,
    citiesOf: string -> seq<PkgCity>,
    normalize: string -> string,
    loose: string -> string,
    wordKey: string -> string)

  const STATE_NAME_ALIASES: map<string, map<string, string>> := map[
    "HU" := map["KE" := "Komárom-Esztergom"],
    "PL" := map["OP" := "Upper Silesia", "PK" := "Subcarpathia", "SK" := "Holy Cross"]]

  /** The legacy name of a package state, or the empty string. */
  function AliasOf(countryCode: string, isoCode: string): string {
    if countryCode in STATE_NAME_ALIASES && isoCode in STATE_NAME_ALIASES[countryCode]
    then STATE_NAME_ALIASES[countryCode][isoCode]
    else ""
  }

  /** The legacy names, spelled out. */
  lemma LegacyNames(countryCode: string, isoCode: string)
    ensures AliasOf(countryCode, isoCode) ==
            if countryCode == "HU" && isoCode == "KE" then "Komárom-Esztergom"
            else if countryCode == "PL" && isoCode == "OP" then "Upper Silesia"
            else if countryCode == "PL" && isoCode == "PK" then "Subcarpathia"
            else if countryCode == "PL" && isoCode == "SK" then "Holy Cross"
            else ""
  {
  }

  /** The items with a key, in their order. */
  function Members<T(!new)>(items: seq<T>, key: T -> string, k: string): (r: seq<T>)
    ensures forall x :: x in r <==> x in items && key(x) == k
  {
    if items == [] then []
    else
      var rest, last := items[..|items| - 1], items[|items| - 1];
      assert items == rest + [last];
      Members(rest, key, k) + if key(last) == k then [last] else []
  }

  /** The distinct keys in order of first appearance. */
  function FirstSeen<T(!new)>(items: seq<T>, key: T -> string): (r: seq<string>)
    ensures forall k :: k in r <==> exists x :: x in items && key(x) == k
    ensures forall i, j :: 0 <= i < j < |r| ==> r[i] != r[j]
  {
    if items == [] then []
    else
      var rest, last := items[..|items| - 1], items[|items| - 1];
      assert items == rest + [last];
      var before := FirstSeen(rest, key);
      if key(last) in before then before else before + [key(last)]
  }

  /** A function that goes through a sequence and keeps some items. */
  ghost predicate IsFilter<T(!new)>(filtered: seq<T> -> seq<T>, kept: T -> bool) {
    filtered([]) == [] && forall s, x :: filtered(s + [x]) == filtered(s) + if kept(x) then [x] else []
  }

  /** It has a kept item as often as the sequence has it, and no others. */
  lemma {:induction false} FilterTimes<T(!new)>(s: seq<T>, filtered: seq<T> -> seq<T>, kept: T -> bool, x: T)
    requires IsFilter(filtered, kept)
    ensures multiset(filtered(s))[x] == if kept(x) then multiset(s)[x] else 0
  {
    if s != [] {
      var rest, last := s[..|s| - 1], s[|s| - 1];
      FilterTimes(rest, filtered, kept, x);
      assert s == rest + [last];
      if !kept(last) {
        assert filtered(s) == filtered(rest);
      }
    }
  }

  lemma InCount<T>(xs: seq<T>, x: T)
    ensures x in xs <==> multiset(xs)[x] > 0
  {
    assert x in xs <==> x in multiset(xs);
  }

  lemma SoleItem<T(!new)>(xs: seq<T>, x: T)
    ensures xs == [x] <==> multiset(xs)[x] == 1 && forall y :: y in xs ==> y == x
  {
    if multiset(xs)[x] == 1 && forall y :: y in xs ==> y == x {
      assert xs[0] in xs;
      if |xs| > 1 {
        assert xs[1] in xs;
        TwoInFront(xs, x);
      }
    }
  }

  lemma TwoInFront<T>(xs: seq<T>, x: T)
    requires |xs| > 1 && xs[0] == x && xs[1] == x
    ensures multiset(xs)[x] >= 2
  {
    assert xs == [x] + [x] + xs[2..];
  }

  ghost predicate Grouped<T(!new)>(items: seq<T>, key: T -> string, order: seq<string>, groups: map<string, seq<T>>) {
    && order == FirstSeen(items, key)
    && (forall k :: k in groups <==> k in order)
    && (forall k :: k in groups ==> groups[k] == Members(items, key, k) && groups[k] != [])
  }

  lemma GroupFacts<T(!new)>(items: seq<T>, key: T -> string, order: seq<string>, groups: map<string, seq<T>>)
    requires Grouped(items, key, order, groups)
    ensures order == FirstSeen(items, key)
    ensures forall k :: k in groups <==> k in order
    ensures forall k :: k in groups ==> groups[k] == Members(items, key, k) && groups[k] != []
  {
  }

  method GroupBy<T(!new)>(items: seq<T>, key: T -> string) returns (order: seq<string>, groups: map<string, seq<T>>)
    ensures Grouped(items, key, order, groups)
  {
    hide Grouped;
    order, groups := [], map[];
    assert Grouped(items[..0], key, order, groups) by { NothingGrouped(items[..0], key); }
    var i := 0;
    while i < |items|
      invariant 0 <= i <= |items|
      invariant Grouped(items[..i], key, order, groups)
    {
      assert items[..i + 1] == items[..i] + [items[i]];
      var k := key(items[i]);
      if k in groups {
        GroupOld(items[..i], items[i], key, order, groups);
        groups := groups[k := groups[k] + [items[i]]];
      } else {
        GroupNew(items[..i], items[i], key, order, groups);
        groups := groups[k := [items[i]]];
        order := order + [k];
      }
      i := i + 1;
    }
    assert items[..|items|] == items;
  }

  lemma NothingGrouped<T(!new)>(items: seq<T>, key: T -> string)
    requires items == []
    ensures Grouped(items, key, [], map[])
  {
  }

  lemma MembersStep<T(!new)>(items: seq<T>, x: T, key: T -> string, k: string)
    ensures Members(items + [x], key, k) == Members(items, key, k) + if key(x) == k then [x] else []
  {
    assert (items + [x])[..|items|] == items;
  }

  lemma FirstSeenStep<T(!new)>(items: seq<T>, x: T, key: T -> string)
    ensures var before := FirstSeen(items, key);
            FirstSeen(items + [x], key) == if key(x) in before then before else before + [key(x)]
  {
    assert (items + [x])[..|items|] == items;
  }

  lemma UnseenEmpty<T(!new)>(items: seq<T>, key: T -> string, k: string)
    requires k !in FirstSeen(items, key)
    ensures Members(items, key, k) == []
  {
  }

  lemma GroupMember<T(!new)>(items: seq<T>, x: T, key: T -> string, order: seq<string>, groups: map<string, seq<T>>, q: string)
    requires Grouped(items, key, order, groups) && q in groups && q != key(x)
    ensures groups[q] == Members(items + [x], key, q) && groups[q] != []
  {
    MembersStep(items, x, key, q);
  }

  lemma GroupOld<T(!new)>(items: seq<T>, x: T, key: T -> string, order: seq<string>, groups: map<string, seq<T>>)
    requires Grouped(items, key, order, groups) && key(x) in groups
    ensures Grouped(items + [x], key, order, groups[key(x) := groups[key(x)] + [x]])
  {
    hide Members, FirstSeen;
    FirstSeenStep(items, x, key);
    MembersStep(items, x, key, key(x));
    forall q | q in groups && q != key(x)
      ensures groups[q] == Members(items + [x], key, q) && groups[q] != []
    {
      GroupMember(items, x, key, order, groups, q);
    }
  }

  lemma GroupNew<T(!new)>(items: seq<T>, x: T, key: T -> string, order: seq<string>, groups: map<string, seq<T>>)
    requires Grouped(items, key, order, groups) && key(x) !in groups
    ensures Grouped(items + [x], key, order + [key(x)], groups[key(x) := [x]])
  {
    hide Members, FirstSeen;
    FirstSeenStep(items, x, key);
    MembersStep(items, x, key, key(x));
    UnseenEmpty(items, key, key(x));
    assert forall q :: q in order + [key(x)] <==> q in order || q == key(x);
    forall q | q in groups
      ensures groups[q] == Members(items + [x], key, q) && groups[q] != []
    {
      GroupMember(items, x, key, order, groups, q);
    }
  }
}

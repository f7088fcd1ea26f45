/** The city phase does not depend on the order in which states and cities are read. The one
    exception is a legacy name that fits two states of a country: the first one is taken. */
module GeoShuffle {
  import opened Outcomes
  import opened GeoData
  import opened GeoVotes
  import opened GeoAssign
  import opened GeoResolve
  import opened GeoCountries

  lemma SameElements<T>(xs: seq<T>, ys: seq<T>)
    requires multiset(xs) == multiset(ys)
    ensures |xs| == |ys| && forall x :: x in xs <==> x in ys
  {
    assert |xs| == |multiset(xs)| && |ys| == |multiset(ys)|;
    forall x: T
      ensures x in xs <==> x in ys
    {
      assert x in xs <==> x in multiset(xs);
      assert x in ys <==> x in multiset(ys);
    }
  }

  lemma MembersCount<T(!new)>(xs: seq<T>, key: T -> string, k: string, x: T)
    ensures multiset(Members(xs, key, k))[x] == if key(x) == k then multiset(xs)[x] else 0
  {
    hide Members;
    var filtered := (s: seq<T>) => Members(s, key, k);
    var kept := (y: T) => key(y) == k;
    NoMembers(key, k);
    forall s: seq<T>, y: T
      ensures filtered(s + [y]) == filtered(s) + if kept(y) then [y] else []
    {
      MembersStep(s, y, key, k);
    }
    FilterTimes(xs, filtered, kept, x);
  }

  lemma NoMembers<T(!new)>(key: T -> string, k: string)
    ensures Members([], key, k) == []
  {
  }

  lemma MembersShuffled<T(!new)>(xs: seq<T>, ys: seq<T>, key: T -> string, k: string)
    requires multiset(xs) == multiset(ys)
    ensures multiset(Members(xs, key, k)) == multiset(Members(ys, key, k))
  {
    hide Members;
    forall x: T
      ensures multiset(Members(xs, key, k))[x] == multiset(Members(ys, key, k))[x]
    {
      MembersCount(xs, key, k, x);
      MembersCount(ys, key, k, x);
    }
  }

  predicate Fits(a: Atlas, rule: Rule, group: seq<Label>, claimed: set<int>, p: Place) {
    p.id !in claimed && exists l :: l in group && Named(a, rule, l.name, p.name)
  }

  lemma NamedAfterCount(a: Atlas, rule: Rule, places: seq<Place>, group: seq<Label>, claimed: set<int>, p: Place)
    ensures multiset(NamedAfter(a, rule, places, group, claimed))[p] ==
            if Fits(a, rule, group, claimed, p) then multiset(places)[p] else 0
  {
    hide Fits, NamedAfter;
    var filtered := (s: seq<Place>) => NamedAfter(a, rule, s, group, claimed);
    var kept := (q: Place) => Fits(a, rule, group, claimed, q);
    NobodyNamedAfter(a, rule, group, claimed);
    forall s: seq<Place>, q: Place
      ensures filtered(s + [q]) == filtered(s) + if kept(q) then [q] else []
    {
      NamedAfterStep(a, rule, s, group, claimed, q);
    }
    FilterTimes(places, filtered, kept, p);
  }

  lemma NobodyNamedAfter(a: Atlas, rule: Rule, group: seq<Label>, claimed: set<int>)
    ensures NamedAfter(a, rule, [], group, claimed) == []
  {
  }

  lemma NamedAfterStep(a: Atlas, rule: Rule, places: seq<Place>, group: seq<Label>, claimed: set<int>, q: Place)
    ensures NamedAfter(a, rule, places + [q], group, claimed) ==
            NamedAfter(a, rule, places, group, claimed) + if Fits(a, rule, group, claimed, q) then [q] else []
  {
    hide Named;
    assert (places + [q])[..|places|] == places;
  }

  lemma NamedAfterShuffled(a: Atlas, rule: Rule, places: seq<Place>, places': seq<Place>,
                           group: seq<Label>, group': seq<Label>, claimed: set<int>)
    requires multiset(places) == multiset(places') && forall l :: l in group <==> l in group'
    ensures multiset(NamedAfter(a, rule, places, group, claimed)) == multiset(NamedAfter(a, rule, places', group', claimed))
  {
    hide NamedAfter, Named;
    forall p: Place
      ensures multiset(NamedAfter(a, rule, places, group, claimed))[p] ==
              multiset(NamedAfter(a, rule, places', group', claimed))[p]
    {
      NamedAfterCount(a, rule, places, group, claimed, p);
      NamedAfterCount(a, rule, places', group', claimed, p);
    }
  }

  lemma {:induction false} CountInConcat(xs: seq<Label>, ys: seq<Label>, ks: set<string>)
    ensures CountIn(xs + ys, ks) == CountIn(xs, ks) + CountIn(ys, ks)
  {
    if ys == [] {
      assert xs + ys == xs;
    } else {
      var n := |ys| - 1;
      CountInConcat(xs, ys[..n], ks);
      assert (xs + ys)[..|xs + ys| - 1] == xs + ys[..n];
    }
  }

  lemma {:induction false} CountInShuffled(xs: seq<Label>, ys: seq<Label>, ks: set<string>)
    requires multiset(xs) == multiset(ys)
    ensures CountIn(xs, ks) == CountIn(ys, ks)
    decreases |xs|
  {
    if xs == [] {
      assert |multiset(ys)| == 0;
    } else {
      var n := |xs| - 1;
      var i := TakeOut(xs, ys);
      CountInShuffled(xs[..n], ys[..i] + ys[i + 1..], ks);
      WithoutOne(ys, i, ks);
    }
  }

  lemma WithoutOne(ys: seq<Label>, i: nat, ks: set<string>)
    requires i < |ys|
    ensures CountIn(ys, ks) == CountIn(ys[..i] + ys[i + 1..], ks) + if GroupKey(ys[i]) in ks then 1 else 0
  {
    var one := [ys[i]];
    assert ys == ys[..i] + one + ys[i + 1..] && one[..0] == [];
    CountInConcat(ys[..i] + one, ys[i + 1..], ks);
    CountInConcat(ys[..i], one, ks);
    CountInConcat(ys[..i], ys[i + 1..], ks);
  }

  // ---------------------------------------------------------------------------------

  /** The same states and cities in some other order. */
  ghost predicate Shuffled(w: World, w': World) {
    && w'.atlas == w.atlas && w'.keys == w.keys
    && multiset(w'.places) == multiset(w.places) && multiset(w'.labels) == multiset(w.labels)
  }

  /** A legacy name that a group's code stands for fits at most one state of the country. */
  ghost predicate AliasesClear(w: World) {
    forall l, p, q :: l in w.labels && p in w.places && q in w.places && Aliased(w.atlas, l, p) && Aliased(w.atlas, l, q) ==> p == q
  }

  predicate Aliased(a: Atlas, l: Label, p: Place) {
    && p.countryCode == l.countryCode && AliasOf(l.countryCode, l.stateCode) != ""
    && a.normalize(p.name) == a.normalize(AliasOf(l.countryCode, l.stateCode))
  }

  lemma {:induction false} FindNamedIs(places: seq<Place>, normalize: string -> string, name: string, p: Place)
    requires p in places && normalize(p.name) == name
    requires forall q :: q in places && normalize(q.name) == name ==> q == p
    ensures FindNamed(places, normalize, name) == Some(p.id)
  {
    if normalize(places[0].name) != name {
      assert places == [places[0]] + places[1..];
      FindNamedIs(places[1..], normalize, name, p);
    }
  }

  lemma {:induction false} FindNamedNone(places: seq<Place>, normalize: string -> string, name: string)
    requires forall q :: q in places ==> normalize(q.name) != name
    ensures FindNamed(places, normalize, name) == None
  {
    if places != [] {
      assert forall q :: q in places[1..] ==> q in places;
      FindNamedNone(places[1..], normalize, name);
    }
  }

  lemma SameFound(w: World, w': World, l: Label)
    requires Shuffled(w, w') && AliasesClear(w) && l in w.labels && AliasOf(l.countryCode, l.stateCode) != ""
    ensures var name := w.atlas.normalize(AliasOf(l.countryCode, l.stateCode));
            FindNamed(PlacesOf(w, l.countryCode), w.atlas.normalize, name) ==
            FindNamed(PlacesOf(w', l.countryCode), w.atlas.normalize, name)
  {
    hide FindNamed, Members, AliasOf;
    SameElements(w.places, w'.places);
    var name := w.atlas.normalize(AliasOf(l.countryCode, l.stateCode));
    var ps, qs := PlacesOf(w, l.countryCode), PlacesOf(w', l.countryCode);
    if p :| p in ps && w.atlas.normalize(p.name) == name {
      assert forall q :: q in ps && w.atlas.normalize(q.name) == name ==> Aliased(w.atlas, l, q);
      FindNamedIs(ps, w.atlas.normalize, name, p);
      FindNamedIs(qs, w.atlas.normalize, name, p);
    } else {
      FindNamedNone(ps, w.atlas.normalize, name);
      FindNamedNone(qs, w.atlas.normalize, name);
    }
  }

  lemma SameGroup(w: World, w': World, k: string)
    requires Shuffled(w, w')
    ensures multiset(GroupOf(w, k)) == multiset(GroupOf(w', k))
    ensures GroupOf(w, k) == [] <==> GroupOf(w', k) == []
    ensures forall l :: l in GroupOf(w, k) <==> l in GroupOf(w', k)
  {
    hide Members;
    MembersShuffled(w.labels, w'.labels, GroupKey, k);
    SameElements(GroupOf(w, k), GroupOf(w', k));
  }

  /** All cities of a group have the same country and state code. */
  lemma SameCodes(w: World, k: string, l: Label, l': Label)
    requires NoBars(w) && l in GroupOf(w, k) && l' in GroupOf(w, k)
    ensures l.countryCode == l'.countryCode && l.stateCode == l'.stateCode
  {
    BarSplit(l.countryCode, l.stateCode, l'.countryCode, l'.stateCode);
  }

  lemma SameGuess(w: World, w': World, k: string, l: Label, l': Label)
    requires Shuffled(w, w') && AliasesClear(w) && l in w.labels
    requires l.countryCode == l'.countryCode && l.stateCode == l'.stateCode
    ensures StateCodeGuess(w, k, l) == StateCodeGuess(w', k, l')
  {
    hide FindNamed, Members, AliasesClear;
    if AliasOf(l.countryCode, l.stateCode) != "" {
      SameFound(w, w', l);
    }
  }

  lemma SameMajority(a: Atlas, keys: map<string, int>, group: seq<Label>, group': seq<Label>)
    requires multiset(group) == multiset(group')
    ensures MajorityOf(a, keys, group) == MajorityOf(a, keys, group')
  {
    hide Majority;
    var m, m' := MajorityOf(a, keys, group), MajorityOf(a, keys, group');
    if m.Some? {
      MajorityAnyOrder(a, keys, group, group', m.value);
    }
    if m'.Some? {
      MajorityAnyOrder(a, keys, group, group', m'.value);
    }
    if m.Some? && m'.Some? {
      MajorityUnique(a, keys, group, m.value, m'.value);
    }
  }

  lemma SameNamed(w: World, w': World, rule: Rule, cc: string, group: seq<Label>, group': seq<Label>, claimed: set<int>)
    requires Shuffled(w, w') && forall l :: l in group <==> l in group'
    ensures var cs := NamedAfter(w.atlas, rule, PlacesOf(w, cc), group, claimed);
            var cs' := NamedAfter(w.atlas, rule, PlacesOf(w', cc), group', claimed);
            |cs| == |cs'| && (|cs| == 1 ==> cs == cs')
  {
    hide NamedAfter, Members;
    MembersShuffled(w.places, w'.places, PlaceCountry, cc);
    NamedAfterShuffled(w.atlas, rule, PlacesOf(w, cc), PlacesOf(w', cc), group, group', claimed);
    var cs := NamedAfter(w.atlas, rule, PlacesOf(w, cc), group, claimed);
    var cs' := NamedAfter(w.atlas, rule, PlacesOf(w', cc), group', claimed);
    SameElements(cs, cs');
    if |cs| == 1 {
      assert cs'[0] in cs';
    }
  }

  lemma SameChoice(w: World, w': World, stage: Stage, st: Claims, k: string)
    requires Shuffled(w, w') && NoBars(w) && AliasesClear(w) && GroupOf(w, k) != []
    ensures GroupOf(w', k) != [] && Choice(w', stage, st, k) == Choice(w, stage, st, k)
  {
    hide Members, NamedAfter, MajorityOf, StateCodeGuess, Shuffled, NoBars, AliasesClear;
    SameGroup(w, w', k);
    var group, group' := GroupOf(w, k), GroupOf(w', k);
    SameCodes(w, k, group[0], group'[0]);
    assert w'.atlas == w.atlas && w'.keys == w.keys by { SameRest(w, w'); }
    SameGuess(w, w', k, group[0], group'[0]);
    SameMajority(w.atlas, w.keys, group, group');
    if stage.CapitalName? {
      SameNamed(w, w', stage.rule, group[0].countryCode, group, group', st.claimed);
    }
  }

  lemma SameRest(w: World, w': World)
    requires Shuffled(w, w')
    ensures w'.atlas == w.atlas && w'.keys == w.keys && Ids(w') == Ids(w)
  {
    SameElements(w.places, w'.places);
  }

  lemma SameChooses(w: World, w': World, stage: Stage, st: Claims, k: string)
    requires Shuffled(w, w') && NoBars(w) && AliasesClear(w)
    ensures Chooses(w, stage, st, k) <==> Chooses(w', stage, st, k)
    ensures Chooses(w, stage, st, k) ==> Choice(w', stage, st, k) == Choice(w, stage, st, k)
  {
    hide Choice, GroupOf, NoBars, AliasesClear, Shuffled;
    SameGroup(w, w', k);
    if GroupOf(w, k) != [] {
      SameChoice(w, w', stage, st, k);
    }
  }

  lemma SamePicks(w: World, w': World, stage: Stage, st: Claims)
    requires Shuffled(w, w') && NoBars(w) && AliasesClear(w)
    ensures Picks(w', stage, st) == Picks(w, stage, st)
  {
    hide Choice, GroupOf, NoBars, AliasesClear;
    SameElements(w.labels, w'.labels);
    SameKeys(w.labels, w'.labels);
    forall k: string
      ensures Chooses(w, stage, st, k) <==> Chooses(w', stage, st, k)
      ensures Chooses(w, stage, st, k) ==> Choice(w', stage, st, k) == Choice(w, stage, st, k)
    {
      SameChooses(w, w', stage, st, k);
    }
  }

  lemma SameKeys(xs: seq<Label>, ys: seq<Label>)
    requires forall l :: l in xs <==> l in ys
    ensures forall k :: k in FirstSeen(xs, GroupKey) <==> k in FirstSeen(ys, GroupKey)
  {
    hide FirstSeen;
  }

  lemma SameApply(w: World, w': World, stage: Stage, st: Claims)
    requires Shuffled(w, w') && NoBars(w) && AliasesClear(w)
    ensures Apply(w', stage, st) == Apply(w, stage, st)
  {
    hide Picks, CountIn, NoBars, AliasesClear, Winners;
    SamePicks(w, w', stage, st);
    CountInShuffled(w.labels, w'.labels, Winners(Picks(w, stage, st), st.claimed));
  }

  lemma {:induction false} SameRounds(w: World, w': World, st: Claims)
    requires Shuffled(w, w') && NoBars(w) && AliasesClear(w)
    ensures Rounds(w', st) == Rounds(w, st)
    decreases |Ids(w) - st.claimed|
  {
    hide Apply, Ids, Shuffled, NoBars, AliasesClear;
    SameApply(w, w', CapitalName(Words), st);
    SameApply(w, w', CapitalName(Prefix), Apply(w, CapitalName(Words), st));
    if |Round(w, st).claimed| > |st.claimed| {
      MoreClaimed(w, st);
      SameRounds(w, w', Round(w, st));
    }
  }

  /** The assignment of states to city groups, and the counts, for any order of the rows. */
  lemma SameResolve(w: World, w': World)
    requires Shuffled(w, w') && NoBars(w) && AliasesClear(w)
    ensures Resolve(w') == Resolve(w)
  {
    hide Apply, Rounds, Shuffled, NoBars, AliasesClear;
    SameApply(w, w', StateCode, NoClaims);
    SameApply(w, w', GroupVote, Apply(w, StateCode, NoClaims));
    SameRounds(w, w', Apply(w, GroupVote, Apply(w, StateCode, NoClaims)));
  }

  // ---------------------------------------------------------------------------------
  // The exception: two states with the legacy name of a group's code

  /** Two states called by the legacy name of PL-SK, and a city filed under that code. */
  function TwoNamesakes(a: Atlas, keys: map<string, int>, first: int, second: int): World {
    World(a, [Place(first, "Holy Cross", "PL"), Place(second, "Holy Cross", "PL")], keys, [Label("x", "PL", "SK")])
  }

  lemma NamesakeGuess(a: Atlas, keys: map<string, int>, first: int, second: int)
    requires StateKey("PL", "SK") !in keys
    ensures var w := TwoNamesakes(a, keys, first, second);
            StateCodeGuess(w, StateKey("PL", "SK"), w.labels[0]) == Some(first)
  {
    var w := TwoNamesakes(a, keys, first, second);
    assert PadStart2("SK") == "SK" && AliasOf("PL", "SK") == "Holy Cross";
    MembersStep([w.places[0]], w.places[1], PlaceCountry, "PL");
    MembersStep([], w.places[0], PlaceCountry, "PL");
    assert [] + [w.places[0]] == [w.places[0]] && [w.places[0]] + [w.places[1]] == w.places;
    assert PlacesOf(w, "PL") == w.places;
  }

  lemma NamesakePick(a: Atlas, keys: map<string, int>, first: int, second: int)
    requires StateKey("PL", "SK") !in keys && first != 0
    ensures Picks(TwoNamesakes(a, keys, first, second), StateCode, NoClaims) == map[StateKey("PL", "SK") := first]
  {
    hide StateCodeGuess, StateKey, Members, FirstSeen;
    var w, k := TwoNamesakes(a, keys, first, second), StateKey("PL", "SK");
    NamesakeGuess(a, keys, first, second);
    assert w.labels[0] in GroupOf(w, k) && GroupKey(w.labels[0]) == k;
    assert GroupOf(w, k)[0] in GroupOf(w, k);
    assert forall q :: q in FirstSeen(w.labels, GroupKey) <==> q == k;
  }

  /** The first one read is given to the group, so the assignment depends on the order. */
  lemma FirstNamesakeTaken(a: Atlas, keys: map<string, int>)
    requires StateKey("PL", "SK") !in keys
    ensures var w, w', k := TwoNamesakes(a, keys, 1, 2), TwoNamesakes(a, keys, 2, 1), StateKey("PL", "SK");
            && Shuffled(w, w') && NoBars(w)
            && k in Resolve(w).byGroup && Resolve(w).byGroup[k] == 1
            && k in Resolve(w').byGroup && Resolve(w').byGroup[k] == 2
  {
    hide Resolve, Picks, StateKey;
    var w, w' := TwoNamesakes(a, keys, 1, 2), TwoNamesakes(a, keys, 2, 1);
    assert multiset(w'.places) == multiset(w.places);
    NamesakeGiven(a, keys, 1, 2);
    NamesakeGiven(a, keys, 2, 1);
  }

  lemma NamesakeGiven(a: Atlas, keys: map<string, int>, first: int, second: int)
    requires StateKey("PL", "SK") !in keys && first != 0
    ensures var w, k := TwoNamesakes(a, keys, first, second), StateKey("PL", "SK");
            k in Resolve(w).byGroup && Resolve(w).byGroup[k] == first
  {
    hide Resolve, Picks, StateKey, Assigned, ClaimsOk, Extends, TwoNamesakes;
    var w, k := TwoNamesakes(a, keys, first, second), StateKey("PL", "SK");
    NamesakePick(a, keys, first, second);
    SolePick(w.labels, k, first);
    ResolveKeeps(w);
    var codes := Apply(w, StateCode, NoClaims);
    StaysGiven(codes, Apply(w, GroupVote, codes), Resolve(w), k);
  }

  lemma SolePick(labels: seq<Label>, k: string, id: int)
    ensures var st := Assigned(labels, NoClaims, map[k := id], StateCode); k in st.byGroup && st.byGroup[k] == id
  {
    hide CountIn;
    assert Winners(map[k := id], {}) == {k};
  }

  lemma StaysGiven(st: Claims, st1: Claims, st2: Claims, k: string)
    requires Extends(st, st1) && Extends(st1, st2) && k in st.byGroup
    ensures k in st2.byGroup && st2.byGroup[k] == st.byGroup[k]
  {
  }
}

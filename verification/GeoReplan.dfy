/** The second run of the whole repair with states and cities read in any order. */
module GeoReplan {
  import opened GeoData
  import opened GeoStates
  import opened GeoRerun
  import opened GeoTables
  import opened GeoStoredCodes
  import opened GeoVotes
  import opened GeoResolve
  import opened GeoResolving
  import opened GeoShuffle
  import opened GeoOrder
  import opened GeoPlan
  import Countries = GeoCountries
  import Ranking

  // ---------------------------------------------------------------------------------
  // The table of state keys

  predicate Filed(p: Place, iso: map<int, string>, k: string) {
    p.id in iso && iso[p.id] != "" && StateKey(p.countryCode, iso[p.id]) == k
  }

  /** No key stands for two states. */
  ghost predicate OneEach(places: seq<Place>, iso: map<int, string>) {
    forall k, p, q :: p in places && q in places && Filed(p, iso, k) && Filed(q, iso, k) ==> p.id == q.id
  }

  lemma {:induction false} KeyAt(places: seq<Place>, iso: map<int, string>, n: nat, k: string)
    requires n <= |places| && OneEach(places, iso)
    ensures k in StateKeys(places, iso, n) <==> exists j :: 0 <= j < n && Filed(places[j], iso, k)
    ensures forall j :: 0 <= j < n && Filed(places[j], iso, k) ==> StateKeys(places, iso, n)[k] == places[j].id
  {
    hide StateKey, OneEach;
    if n > 0 {
      KeyAt(places, iso, n - 1, k);
      forall j | 0 <= j < n && Filed(places[j], iso, k) && Filed(places[n - 1], iso, k)
        ensures places[j].id == places[n - 1].id
      {
        OneEachAt(places, iso, k, j, n - 1);
      }
    }
  }

  lemma OneEachAt(places: seq<Place>, iso: map<int, string>, k: string, i: nat, j: nat)
    requires i < |places| && j < |places| && OneEach(places, iso)
    requires Filed(places[i], iso, k) && Filed(places[j], iso, k)
    ensures places[i].id == places[j].id
  {
    assert places[i] in places && places[j] in places;
  }

  /** Then it does not matter which state is filed last. */
  lemma SameStateKeys(ps: seq<Place>, qs: seq<Place>, iso: map<int, string>)
    requires OneEach(ps, iso) && multiset(qs) == multiset(ps)
    ensures StateKeys(qs, iso, |qs|) == StateKeys(ps, iso, |ps|)
  {
    hide StateKeys, Filed;
    SameElements(ps, qs);
    forall k: string
      ensures k in StateKeys(qs, iso, |qs|) <==> k in StateKeys(ps, iso, |ps|)
      ensures k in StateKeys(qs, iso, |qs|) ==> StateKeys(qs, iso, |qs|)[k] == StateKeys(ps, iso, |ps|)[k]
    {
      KeyAt(ps, iso, |ps|, k);
      KeyAt(qs, iso, |qs|, k);
      if j :| 0 <= j < |ps| && Filed(ps[j], iso, k) {
        assert ps[j] in qs;
        var i :| 0 <= i < |qs| && qs[i] == ps[j];
      } else {
        forall i | 0 <= i < |qs|
          ensures !Filed(qs[i], iso, k)
        {
          assert qs[i] in ps;
        }
      }
    }
  }

  /** Keys are unique, since codes are unique within a country. */
  lemma KeysUnique(a: Atlas, states: seq<GeoState>)
    requires DistinctIds(states) && forall s :: s in states ==> '|' !in s.countryCode
    ensures OneEach(Places(states), MatchStates(a, states).iso)
  {
    hide MatchStates, DistinctIds;
    var iso := MatchStates(a, states).iso;
    forall k, p, q | p in Places(states) && q in Places(states) && Filed(p, iso, k) && Filed(q, iso, k)
      ensures p.id == q.id
    {
      var i :| 0 <= i < |states| && Places(states)[i] == p;
      var j :| 0 <= j < |states| && Places(states)[j] == q;
      assert states[i] in states && states[j] in states;
      Countries.BarSplit(p.countryCode, iso[p.id], q.countryCode, iso[q.id]);
      OneStatePerCode(a, states, states[i], states[j]);
    }
  }

  // ---------------------------------------------------------------------------------
  // The city phase in the second run

  lemma {:induction false} MappedShuffled<T(!new), U(!new)>(xs: seq<T>, ys: seq<T>, us: seq<U>, vs: seq<U>, f: T -> U)
    requires multiset(xs) == multiset(ys) && |us| == |xs| && |vs| == |ys|
    requires forall i :: 0 <= i < |xs| ==> us[i] == f(xs[i])
    requires forall i :: 0 <= i < |ys| ==> vs[i] == f(ys[i])
    ensures multiset(us) == multiset(vs)
    decreases |xs|
  {
    SameElements(xs, ys);
    if xs != [] {
      var n := |xs| - 1;
      var i := TakeOut(xs, ys);
      var ys', vs' := ys[..i] + ys[i + 1..], vs[..i] + vs[i + 1..];
      MappedShuffled(xs[..n], ys', us[..n], vs', f);
      Ranking.AllButOne(us, n);
      Ranking.AllButOne(vs, i);
      assert us[..n] + us[n + 1..] == us[..n];
    }
  }

  lemma PlacesShuffled(rows: seq<GeoState>, rows': seq<GeoState>)
    requires multiset(rows) == multiset(rows')
    ensures multiset(Places(rows)) == multiset(Places(rows'))
  {
    MappedShuffled(rows, rows', Places(rows), Places(rows'), PlaceOf);
  }

  lemma LabelsShuffled(rows: seq<GeoCity>, rows': seq<GeoCity>)
    requires multiset(rows) == multiset(rows')
    ensures multiset(Labels(rows)) == multiset(Labels(rows'))
  {
    MappedShuffled(rows, rows', Labels(rows), Labels(rows'), LabelOf);
  }

  predicate HasLegacyName(a: Atlas, s: GeoState, code: string) {
    AliasOf(s.countryCode, code) != "" && a.normalize(s.name) == a.normalize(AliasOf(s.countryCode, code))
  }

  /** Each legacy name is the name of at most one state of its country. */
  ghost predicate LegacyNamesClear(a: Atlas, states: seq<GeoState>) {
    forall s, r, code ::
      s in states && r in states && s.countryCode == r.countryCode && HasLegacyName(a, s, code) && HasLegacyName(a, r, code)
      ==> s == r
  }

  lemma WorldClear(a: Atlas, states: seq<GeoState>, cities: seq<GeoCity>, iso: map<int, string>)
    requires LegacyNamesClear(a, states)
    ensures AliasesClear(WorldOf(a, states, cities, iso))
  {
    hide StateKeys, AliasOf;
    var w := WorldOf(a, states, cities, iso);
    forall l, p, q | l in w.labels && p in w.places && q in w.places && Aliased(w.atlas, l, p) && Aliased(w.atlas, l, q)
      ensures p == q
    {
      var i :| 0 <= i < |states| && Places(states)[i] == p;
      var j :| 0 <= j < |states| && Places(states)[j] == q;
      assert HasLegacyName(a, states[i], l.stateCode) && HasLegacyName(a, states[j], l.stateCode);
    }
  }

  /** The rows after a plan was applied, in some order. */
  ghost predicate Repaired(p: CityStatePlan, states: seq<GeoState>, cities: seq<GeoCity>, rows: seq<GeoState>, cityRows: seq<GeoCity>) {
    && multiset(rows) == multiset(RefillAll(states, p.stateIsoBackfills))
    && multiset(cityRows) == multiset(RepointAll(cities, p.cityStateUpdates))
  }

  lemma WorldShuffled(a: Atlas, states: seq<GeoState>, cities: seq<GeoCity>, rows: seq<GeoState>, cityRows: seq<GeoCity>)
    requires DistinctIds(states) && PlainCountries(states, cities)
    requires Repaired(Plan(a, states, cities), states, cities, rows, cityRows)
    ensures var iso := MatchStates(a, states).iso; Shuffled(WorldOf(a, states, cities, iso), WorldOf(a, rows, cityRows, iso))
  {
    hide MatchStates, SharedTables, Resolve, StateKeys, DistinctIds, CityUpdates, Unresolved;
    var p, iso := Plan(a, states, cities), MatchStates(a, states).iso;
    SameWorld(a, states, cities, p.stateIsoBackfills, p.cityStateUpdates, iso);
    PlacesShuffled(RefillAll(states, p.stateIsoBackfills), rows);
    LabelsShuffled(RepointAll(cities, p.cityStateUpdates), cityRows);
    KeysUnique(a, states);
    SameStateKeys(Places(states), Places(rows), iso);
  }

  lemma SameGroups(a: Atlas, states: seq<GeoState>, cities: seq<GeoCity>, rows: seq<GeoState>, cityRows: seq<GeoCity>)
    requires DistinctIds(states) && PlainCountries(states, cities) && LegacyNamesClear(a, states)
    requires Repaired(Plan(a, states, cities), states, cities, rows, cityRows)
    requires SharedTables(a, rows).iso == MatchStates(a, states).iso
    ensures GroupStates(a, rows, cityRows) == GroupStates(a, states, cities)
  {
    hide MatchStates, SharedTables, Resolve, WorldOf, DistinctIds, Plan, LegacyNamesClear, Repaired, Shuffled, AliasesClear, PlainCountries;
    var iso := MatchStates(a, states).iso;
    SharedIsMerged(a, states);
    PlainWorld(a, states, cities);
    WorldClear(a, states, cities, iso);
    WorldShuffled(a, states, cities, rows, cityRows);
    SameResolve(WorldOf(a, states, cities, iso), WorldOf(a, rows, cityRows, iso));
  }

  // ---------------------------------------------------------------------------------
  // The cities in the second run

  predicate AtHome(c: GeoCity, byGroup: map<string, int>) {
    HasState(c, byGroup) ==> byGroup[KeyOf(c)] == c.stateId
  }

  lemma MovedHome(cities: seq<GeoCity>, byGroup: map<string, int>)
    requires DistinctCityIds(cities)
    ensures forall c :: c in RepointAll(cities, CityUpdates(cities, byGroup, |cities|)) ==> AtHome(c, byGroup)
  {
    hide KeyOf, DistinctCityIds, CityUpdates;
    var u := CityUpdates(cities, byGroup, |cities|);
    forall c | c in RepointAll(cities, u)
      ensures AtHome(c, byGroup)
    {
      var i :| 0 <= i < |cities| && RepointAll(cities, u)[i] == c;
      UpdateAt(cities, byGroup, |cities|, i);
      SameKey(cities[i], u);
    }
  }

  lemma {:induction false} NobodyMoves(cities: seq<GeoCity>, byGroup: map<string, int>, n: nat)
    requires n <= |cities| && forall c :: c in cities ==> AtHome(c, byGroup)
    ensures CityUpdates(cities, byGroup, n) == map[]
  {
    if n > 0 {
      hide KeyOf;
      NobodyMoves(cities, byGroup, n - 1);
      assert AtHome(cities[n - 1], byGroup);
    }
  }

  lemma {:induction false} SamePrefix(cities: seq<GeoCity>, more: seq<GeoCity>, byGroup: map<string, int>, n: nat)
    requires n <= |cities| <= |more| && forall i :: 0 <= i < |cities| ==> more[i] == cities[i]
    ensures Unresolved(more, byGroup, n) == Unresolved(cities, byGroup, n)
  {
    hide HasState;
    if n > 0 {
      SamePrefix(cities, more, byGroup, n - 1);
    }
  }

  lemma UnresolvedTimes(cities: seq<GeoCity>, byGroup: map<string, int>, c: GeoCity)
    ensures multiset(Unresolved(cities, byGroup, |cities|))[c] == if HasState(c, byGroup) then 0 else multiset(cities)[c]
  {
    hide HasState;
    var filtered := (s: seq<GeoCity>) => Unresolved(s, byGroup, |s|);
    var kept := (d: GeoCity) => !HasState(d, byGroup);
    forall s: seq<GeoCity>, d: GeoCity
      ensures filtered(s + [d]) == filtered(s) + if kept(d) then [d] else []
    {
      SamePrefix(s, s + [d], byGroup, |s|);
    }
    FilterTimes(cities, filtered, kept, c);
  }

  lemma UnresolvedShuffled(cities: seq<GeoCity>, cities': seq<GeoCity>, byGroup: map<string, int>)
    requires multiset(cities) == multiset(cities')
    ensures multiset(Unresolved(cities, byGroup, |cities|)) == multiset(Unresolved(cities', byGroup, |cities'|))
  {
    hide HasState, Unresolved;
    assert cities[..|cities|] == cities && cities'[..|cities'|] == cities';
    forall c: GeoCity
      ensures multiset(Unresolved(cities, byGroup, |cities|))[c] == multiset(Unresolved(cities', byGroup, |cities'|))[c]
    {
      UnresolvedTimes(cities, byGroup, c);
      UnresolvedTimes(cities', byGroup, c);
    }
  }

  lemma CitiesSettled(cities: seq<GeoCity>, cityRows: seq<GeoCity>, byGroup: map<string, int>)
    requires DistinctCityIds(cities)
    requires multiset(cityRows) == multiset(RepointAll(cities, CityUpdates(cities, byGroup, |cities|)))
    ensures CityUpdates(cityRows, byGroup, |cityRows|) == map[]
    ensures multiset(Unresolved(cityRows, byGroup, |cityRows|)) == multiset(Unresolved(cities, byGroup, |cities|))
  {
    hide CityUpdates, Unresolved, DistinctCityIds, AtHome;
    var moved := RepointAll(cities, CityUpdates(cities, byGroup, |cities|));
    MovedHome(cities, byGroup);
    SameElements(cityRows, moved);
    NobodyMoves(cityRows, byGroup, |cityRows|);
    NothingToMove(cities, byGroup, |cities|);
    UnresolvedShuffled(cityRows, moved, byGroup);
  }

  // ---------------------------------------------------------------------------------
  // The second plan

  /** The second plan changes no row and leaves the same states unmatched. */
  ghost predicate ChangesNothing(p: CityStatePlan, q: CityStatePlan) {
    && q.stateIsoBackfills == map[] && q.cityStateUpdates == map[]
    && forall u :: u in q.unmatchedStates <==> u in p.unmatchedStates
  }

  /** In any order of the rows, the second plan changes nothing, counts the same cities and
      leaves the same rows open. */
  lemma FinalInAnyOrder(a: Atlas, states: seq<GeoState>, cities: seq<GeoCity>, rows: seq<GeoState>, cityRows: seq<GeoCity>)
    requires DistinctIds(states) && DistinctCityIds(cities) && PackageCoded(a)
    requires PlainCountries(states, cities) && LegacyNamesClear(a, states)
    requires NothingLeft(a, states) && NoCodeLost(a, states)
    requires Repaired(Plan(a, states, cities), states, cities, rows, cityRows)
    ensures var p, q := Plan(a, states, cities), Plan(a, rows, cityRows);
            && ChangesNothing(p, q)
            && multiset(q.unresolvedCities) == multiset(p.unresolvedCities)
            && q.byStateCode == p.byStateCode && q.byGroupVote == p.byGroupVote && q.byCapitalName == p.byCapitalName
  {
    hide MatchStates, SharedTables, GroupStates, CityUpdates, Unresolved, DistinctIds, DistinctCityIds, PackageCoded,
      LegacyNamesClear, NothingLeft, NoCodeLost, PlainCountries;
    SharedIsMerged(a, states);
    StoredDistinct(a, states, rows);
    SharedIsMerged(a, rows);
    QuietInAnyOrder(a, states, rows);
    SameGroups(a, states, cities, rows, cityRows);
    CitiesSettled(cities, cityRows, GroupStates(a, states, cities).byGroup);
  }

  /** An unmatched state with a stored code is matched if it is read first. */
  lemma LostCodeMatters(a: Atlas, states: seq<GeoState>, cities: seq<GeoCity>, u: GeoState) returns (rows: seq<GeoState>, cityRows: seq<GeoCity>)
    requires DistinctIds(states) && u in MatchStates(a, states).unmatched && u.isoCode != ""
    ensures var p := Plan(a, states, cities); Repaired(p, states, cities, rows, cityRows) && !ChangesNothing(p, Plan(a, rows, cityRows))
  {
    hide MatchStates, SharedTables, GroupStates, CityUpdates, Unresolved, DistinctIds;
    SharedIsMerged(a, states);
    rows := LostCodeReturns(a, states, u);
    cityRows := RepointAll(cities, Plan(a, states, cities).cityStateUpdates);
    StoredDistinct(a, states, rows);
    SharedIsMerged(a, rows);
  }

  /** A second run changes nothing in every order of the rows exactly when nothing is left to
      match and no unmatched state has a stored code. */
  lemma FinalInAnyOrderIff(a: Atlas, states: seq<GeoState>, cities: seq<GeoCity>)
    requires DistinctIds(states) && DistinctCityIds(cities) && PackageCoded(a)
    requires PlainCountries(states, cities) && LegacyNamesClear(a, states)
    ensures (forall rows, cityRows :: Repaired(Plan(a, states, cities), states, cities, rows, cityRows) ==>
               ChangesNothing(Plan(a, states, cities), Plan(a, rows, cityRows))) <==>
            NothingLeft(a, states) && NoCodeLost(a, states)
  {
    hide MatchStates, SharedTables, GroupStates, CityUpdates, Unresolved, DistinctIds, DistinctCityIds, PackageCoded,
      LegacyNamesClear, NothingLeft, PlainCountries;
    var p := Plan(a, states, cities);
    SharedIsMerged(a, states);
    if NothingLeft(a, states) && NoCodeLost(a, states) {
      forall rows, cityRows | Repaired(p, states, cities, rows, cityRows)
        ensures ChangesNothing(p, Plan(a, rows, cityRows))
      {
        FinalInAnyOrder(a, states, cities, rows, cityRows);
      }
    }
    if forall rows, cityRows :: Repaired(p, states, cities, rows, cityRows) ==> ChangesNothing(p, Plan(a, rows, cityRows)) {
      assert Repaired(p, states, cities, RefillAll(states, p.stateIsoBackfills), RepointAll(cities, p.cityStateUpdates));
      RepairTwice(a, states, cities);
      forall u | u in MatchStates(a, states).unmatched
        ensures u.isoCode == ""
      {
        if u.isoCode != "" {
          var rows, cityRows := LostCodeMatters(a, states, cities, u);
          assert false;
        }
      }
    }
  }

  /** So a plan without unmatched states is final in any order of the rows. */
  lemma MatchedPlanFinalInAnyOrder(a: Atlas, states: seq<GeoState>, cities: seq<GeoCity>, rows: seq<GeoState>, cityRows: seq<GeoCity>)
    requires DistinctIds(states) && DistinctCityIds(cities) && PackageCoded(a)
    requires PlainCountries(states, cities) && LegacyNamesClear(a, states)
    requires Repaired(Plan(a, states, cities), states, cities, rows, cityRows)
    ensures var p, q := Plan(a, states, cities), Plan(a, rows, cityRows);
            p.unmatchedStates == [] || (UniqueCodes(states) && NothingLeft(a, states)) ==> ChangesNothing(p, q)
  {
    hide MatchStates, SharedTables, GroupStates, CityUpdates, Unresolved, DistinctIds, DistinctCityIds, PackageCoded,
      LegacyNamesClear, PlainCountries, Stuck, FirstInCountry, UniqueCodes, ChangesNothing, Repaired;
    var p := Plan(a, states, cities);
    SharedIsMerged(a, states);
    if UniqueCodes(states) {
      UniqueNotLost(a, states);
    }
    if p.unmatchedStates == [] || (UniqueCodes(states) && NothingLeft(a, states)) {
      assert NothingLeft(a, states) && NoCodeLost(a, states);
      FinalInAnyOrder(a, states, cities, rows, cityRows);
    }
  }
}

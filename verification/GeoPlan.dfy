/** The whole repair plan: state codes to store, cities to move, and what stays open. Main
    results: a second run after applying the plan changes nothing exactly when no state was
    left that could still be matched; every city is counted once; moves stay in the country. */
module GeoPlan {
  import opened Outcomes
  import opened GeoData
  import opened GeoStates
  import opened GeoRerun
  import opened GeoTables
  import opened GeoVotes
  import opened GeoResolve
  import opened GeoResolving
  import Assign = GeoAssign
  import Countries = GeoCountries

  datatype CityStatePlan = CityStatePlan(
    stateIsoBackfills: map<int, string>,
    cityStateUpdates: map<int, int>,
    byStateCode: nat, byGroupVote: nat, byCapitalName: nat,
    unmatchedStates: seq<GeoState>,
    unresolvedCities: seq<GeoCity>)

  function PlaceOf(s: GeoState): Place {
    Place(s.id, s.name, s.countryCode)
  }

  function LabelOf(c: GeoCity): Label {
    Label(c.name, c.countryCode, c.stateCode)
  }

  function Places(states: seq<GeoState>): (r: seq<Place>)
    ensures |r| == |states| && forall i :: 0 <= i < |r| ==> r[i] == PlaceOf(states[i])
  {
    seq(|states|, i requires 0 <= i < |states| => PlaceOf(states[i]))
  }

  function Labels(cities: seq<GeoCity>): (r: seq<Label>)
    ensures |r| == |cities| && forall i :: 0 <= i < |r| ==> r[i] == LabelOf(cities[i])
  {
    seq(|cities|, i requires 0 <= i < |cities| => LabelOf(cities[i]))
  }

  /** The city phase sees neither the cities' state ids nor the states' stored codes. */
  function WorldOf(a: Atlas, states: seq<GeoState>, cities: seq<GeoCity>, iso: map<int, string>): World {
    World(a, Places(states), StateKeys(Places(states), iso, |states|), Labels(cities))
  }

  function KeyOf(c: GeoCity): string {
    GroupKey(LabelOf(c))
  }

  /** The state of the city's group, unless there is none or its id is 0. */
  predicate HasState(c: GeoCity, byGroup: map<string, int>) {
    KeyOf(c) in byGroup && byGroup[KeyOf(c)] != 0
  }

  function CityUpdates(cities: seq<GeoCity>, byGroup: map<string, int>, n: nat): map<int, int>
    requires n <= |cities|
  {
    if n == 0 then map[]
    else
      var before, c := CityUpdates(cities, byGroup, n - 1), cities[n - 1];
      if HasState(c, byGroup) && byGroup[KeyOf(c)] != c.stateId then before[c.id := byGroup[KeyOf(c)]] else before
  }

  function Unresolved(cities: seq<GeoCity>, byGroup: map<string, int>, n: nat): seq<GeoCity>
    requires n <= |cities|
  {
    if n == 0 then []
    else Unresolved(cities, byGroup, n - 1) + if HasState(cities[n - 1], byGroup) then [] else [cities[n - 1]]
  }

  /** The assignment of states to city groups. */
  ghost function GroupStates(a: Atlas, states: seq<GeoState>, cities: seq<GeoCity>): Assign.Claims {
    Resolve(WorldOf(a, states, cities, SharedTables(a, states).iso))
  }

  ghost function Plan(a: Atlas, states: seq<GeoState>, cities: seq<GeoCity>): CityStatePlan {
    var t, st := SharedTables(a, states), GroupStates(a, states, cities);
    CityStatePlan(t.back, CityUpdates(cities, st.byGroup, |cities|), st.stateCode, st.groupVote, st.capitalName,
                  t.unmatched, Unresolved(cities, st.byGroup, |cities|))
  }

  method PlanCityStateRepair(a: Atlas, states: seq<GeoState>, cities: seq<GeoCity>) returns (plan: CityStatePlan)
    ensures plan == Plan(a, states, cities)
  {
    hide SharedTables, Resolve, StateKeys;
    var t := MatchAllCountries(a, states);
    var places, labels := Places(states), Labels(cities);
    var keys := IndexStates(places, t.iso);
    var st := ResolveGroups(World(a, places, keys, labels));
    var updates: map<int, int>, unresolved: seq<GeoCity> := map[], [];
    for i := 0 to |cities|
      invariant updates == CityUpdates(cities, st.byGroup, i)
      invariant unresolved == Unresolved(cities, st.byGroup, i)
    {
      var c := cities[i];
      if KeyOf(c) !in st.byGroup || st.byGroup[KeyOf(c)] == 0 {
        unresolved := unresolved + [c];
      } else if st.byGroup[KeyOf(c)] != c.stateId {
        updates := updates[c.id := st.byGroup[KeyOf(c)]];
      }
    }
    plan := CityStatePlan(t.back, updates, st.stateCode, st.groupVote, st.capitalName, t.unmatched, unresolved);
  }

  // ---------------------------------------------------------------------------------
  // City updates by city

  ghost predicate DistinctCityIds(cities: seq<GeoCity>) {
    forall i, j :: 0 <= i < j < |cities| ==> cities[i].id != cities[j].id
  }

  lemma {:induction false} UpdateIds(cities: seq<GeoCity>, byGroup: map<string, int>, n: nat)
    requires n <= |cities|
    ensures forall i :: i in CityUpdates(cities, byGroup, n) ==> exists k :: 0 <= k < n && cities[k].id == i
  {
    if n > 0 {
      UpdateIds(cities, byGroup, n - 1);
      assert cities[n - 1].id == cities[n - 1].id;
    }
  }

  /** With unique city ids, a city is moved exactly when its group has another state. */
  lemma {:induction false} UpdateAt(cities: seq<GeoCity>, byGroup: map<string, int>, n: nat, k: nat)
    requires k < n <= |cities| && DistinctCityIds(cities)
    ensures var u, c := CityUpdates(cities, byGroup, n), cities[k];
            && (c.id in u <==> HasState(c, byGroup) && byGroup[KeyOf(c)] != c.stateId)
            && (c.id in u ==> u[c.id] == byGroup[KeyOf(c)])
  {
    hide HasState, KeyOf;
    if k < n - 1 {
      UpdateAt(cities, byGroup, n - 1, k);
      assert cities[k].id != cities[n - 1].id;
    } else {
      UpdateIds(cities, byGroup, n - 1);
      assert forall j :: 0 <= j < k ==> cities[j].id != cities[k].id;
    }
  }

  // ---------------------------------------------------------------------------------
  // Conservation

  function GivenKeys(byGroup: map<string, int>): set<string> {
    set k | k in byGroup && byGroup[k] != 0
  }

  lemma {:induction false} UnresolvedCount(cities: seq<GeoCity>, byGroup: map<string, int>, n: nat)
    requires n <= |cities|
    ensures |Unresolved(cities, byGroup, n)| + Assign.CountIn(Labels(cities)[..n], GivenKeys(byGroup)) == n
  {
    if n > 0 {
      UnresolvedCount(cities, byGroup, n - 1);
      assert Labels(cities)[..n][..n - 1] == Labels(cities)[..n - 1];
    }
  }

  lemma {:induction false} CountFewer(labels: seq<Label>, ks: set<string>, js: set<string>)
    requires ks <= js
    ensures Assign.CountIn(labels, ks) <= Assign.CountIn(labels, js)
    ensures Assign.CountIn(labels, ks) == Assign.CountIn(labels, js) <==>
            forall l :: l in labels && GroupKey(l) in js ==> GroupKey(l) in ks
  {
    if labels != [] {
      var rest, last := labels[..|labels| - 1], labels[|labels| - 1];
      assert labels == rest + [last];
      CountFewer(rest, ks, js);
      assert forall l :: l in labels <==> l in rest || l == last;
    }
  }

  /** The three counts and the unresolved cities add up to all cities exactly when no city's
      group was given the id 0, which the script takes for no id. */
  lemma PlanConserves(a: Atlas, states: seq<GeoState>, cities: seq<GeoCity>)
    ensures var p := Plan(a, states, cities);
            p.byStateCode + p.byGroupVote + p.byCapitalName + |p.unresolvedCities| == |cities| <==>
            forall c :: c in cities && KeyOf(c) in GroupStates(a, states, cities).byGroup ==>
                        GroupStates(a, states, cities).byGroup[KeyOf(c)] != 0
  {
    hide SharedTables, Resolve, StateKeys;
    var w := WorldOf(a, states, cities, SharedTables(a, states).iso);
    var byGroup := Resolve(w).byGroup;
    ResolveKeeps(w);
    UnresolvedCount(cities, byGroup, |cities|);
    assert Labels(cities)[..|cities|] == Labels(cities);
    CountFewer(Labels(cities), GivenKeys(byGroup), byGroup.Keys);
    LabelledKeys(cities, byGroup);
  }

  /** So they do when no state has the id 0. */
  lemma EveryCityCounted(a: Atlas, states: seq<GeoState>, cities: seq<GeoCity>)
    requires forall s :: s in states ==> s.id != 0
    ensures var p := Plan(a, states, cities);
            p.byStateCode + p.byGroupVote + p.byCapitalName + |p.unresolvedCities| == |cities|
  {
    hide SharedTables, Resolve, StateKeys, Plan;
    PlanConserves(a, states, cities);
    var w := WorldOf(a, states, cities, SharedTables(a, states).iso);
    assert 0 !in Ids(w);
    forall k | k in Resolve(w).byGroup
      ensures Resolve(w).byGroup[k] != 0
    {
      Countries.ResolveNonzero(w, k);
    }
  }

  lemma LabelledKeys(cities: seq<GeoCity>, byGroup: map<string, int>)
    ensures (forall l :: l in Labels(cities) && GroupKey(l) in byGroup ==> GroupKey(l) in GivenKeys(byGroup)) <==>
            (forall c :: c in cities && KeyOf(c) in byGroup ==> byGroup[KeyOf(c)] != 0)
  {
    hide GroupKey;
    forall c | c in cities
      ensures LabelOf(c) in Labels(cities)
    {
      var i :| 0 <= i < |cities| && cities[i] == c;
      assert Labels(cities)[i] == LabelOf(c);
    }
    forall l | l in Labels(cities)
      ensures exists c :: c in cities && LabelOf(c) == l
    {
      var i :| 0 <= i < |cities| && Labels(cities)[i] == l;
      assert LabelOf(cities[i]) == l;
    }
  }

  // ---------------------------------------------------------------------------------
  // What the plan says of every row

  /** State i has a code, and its key is k. */
  predicate KeyedAt(states: seq<GeoState>, iso: map<int, string>, i: nat, k: string)
    requires i < |states|
  {
    states[i].id in iso && iso[states[i].id] != "" && k == states[i].countryCode + "|" + iso[states[i].id]
  }

  /** A key stands for the last state that has it. */
  lemma {:induction false} KeyStandsFor(states: seq<GeoState>, iso: map<int, string>, n: nat, k: string)
    requires n <= |states|
    ensures var keys := StateKeys(Places(states), iso, n);
            && (k in keys <==> exists i :: 0 <= i < n && KeyedAt(states, iso, i, k))
            && (k in keys ==> exists i :: 0 <= i < n && KeyedAt(states, iso, i, k) && keys[k] == states[i].id
                                          && forall j :: i < j < n ==> !KeyedAt(states, iso, j, k))
  {
    if n > 0 {
      hide KeyedAt, StateKeys;
      KeyStandsFor(states, iso, n - 1, k);
      LastKey(states, iso, n, k);
    } else {
      hide KeyedAt;
    }
  }

  lemma LastKey(states: seq<GeoState>, iso: map<int, string>, n: nat, k: string)
    requires 0 < n <= |states|
    ensures var keys, before := StateKeys(Places(states), iso, n), StateKeys(Places(states), iso, n - 1);
            if KeyedAt(states, iso, n - 1, k) then k in keys && keys[k] == states[n - 1].id
            else (k in keys <==> k in before) && (k in keys ==> keys[k] == before[k])
  {
    assert Places(states)[n - 1] == PlaceOf(states[n - 1]);
  }

  /** What the plan says of a city: it is moved exactly if its group was given another state
      than its own, and is left open exactly if its group was given none or the id 0. */
  lemma CityDecided(a: Atlas, states: seq<GeoState>, cities: seq<GeoCity>, c: GeoCity)
    requires DistinctCityIds(cities) && c in cities
    ensures var p, given := Plan(a, states, cities), GroupStates(a, states, cities);
            var k := c.countryCode + "|" + c.stateCode;
            && (c.id in p.cityStateUpdates <==> k in given.byGroup && given.byGroup[k] != 0 && given.byGroup[k] != c.stateId)
            && (c.id in p.cityStateUpdates ==> p.cityStateUpdates[c.id] == given.byGroup[k])
            && (c in p.unresolvedCities <==> k !in given.byGroup || given.byGroup[k] == 0)
            && p.byStateCode == given.stateCode && p.byGroupVote == given.groupVote && p.byCapitalName == given.capitalName
  {
    hide SharedTables, Resolve, WorldOf, DistinctCityIds;
    var byGroup := GroupStates(a, states, cities).byGroup;
    var i := IndexOf(cities, c);
    UpdateAt(cities, byGroup, |cities|, i);
    OpenCity(cities, byGroup, |cities|, c);
  }

  lemma {:induction false} OpenCity(cities: seq<GeoCity>, byGroup: map<string, int>, n: nat, c: GeoCity)
    requires n <= |cities|
    ensures c in Unresolved(cities, byGroup, n) <==> c in cities[..n] && !HasState(c, byGroup)
  {
    if n > 0 {
      hide HasState;
      OpenCity(cities, byGroup, n - 1, c);
      assert cities[..n] == cities[..n - 1] + [cities[n - 1]];
    }
  }

  // ---------------------------------------------------------------------------------
  // Moves stay in the country and never merge two groups

  lemma {:induction false} KeysFrom(places: seq<Place>, iso: map<int, string>, n: nat)
    requires n <= |places|
    ensures forall k :: k in StateKeys(places, iso, n) ==>
              exists p, code :: p in places && p.id == StateKeys(places, iso, n)[k] && k == StateKey(p.countryCode, code)
  {
    if n > 0 {
      KeysFrom(places, iso, n - 1);
      var p := places[n - 1];
      if p.id in iso {
        assert StateKey(p.countryCode, iso[p.id]) == StateKey(p.countryCode, iso[p.id]);
      }
    }
  }

  /** No country code contains the separator of the group keys. */
  ghost predicate PlainCountries(states: seq<GeoState>, cities: seq<GeoCity>) {
    && (forall s :: s in states ==> '|' !in s.countryCode)
    && (forall c :: c in cities ==> '|' !in c.countryCode)
  }

  /** A city is only ever moved to a state of its own country, and two cities moved to one
      state have the same country and state code. */
  lemma MovesStayHome(a: Atlas, states: seq<GeoState>, cities: seq<GeoCity>, c: GeoCity)
    requires DistinctCityIds(cities) && PlainCountries(states, cities) && c in cities
    ensures var u := Plan(a, states, cities).cityStateUpdates;
            c.id in u ==> exists s :: s in states && s.id == u[c.id] && s.countryCode == c.countryCode
  {
    hide SharedTables, Resolve, StateKeys, CityUpdates, DistinctCityIds;
    var w := WorldOf(a, states, cities, SharedTables(a, states).iso);
    var byGroup := Resolve(w).byGroup;
    var i := IndexOf(cities, c);
    UpdateAt(cities, byGroup, |cities|, i);
    if c.id in CityUpdates(cities, byGroup, |cities|) {
      KeysFrom(w.places, SharedTables(a, states).iso, |states|);
      PlainWorld(a, states, cities);
      assert w.labels[i] == LabelOf(c);
      Countries.ResolveOwn(w, LabelOf(c));
      var p :| p in w.places && p.countryCode == c.countryCode && p.id == byGroup[KeyOf(c)];
      var k :| 0 <= k < |w.places| && w.places[k] == p;
      assert states[k] in states && states[k].id == p.id && states[k].countryCode == c.countryCode;
    }
  }

  lemma IndexOf(cities: seq<GeoCity>, c: GeoCity) returns (i: nat)
    requires c in cities
    ensures i < |cities| && cities[i] == c
  {
    i :| 0 <= i < |cities| && cities[i] == c;
  }

  lemma PlainWorld(a: Atlas, states: seq<GeoState>, cities: seq<GeoCity>)
    requires PlainCountries(states, cities)
    ensures Countries.NoBars(WorldOf(a, states, cities, SharedTables(a, states).iso))
  {
    hide SharedTables, StateKeys;
  }

  lemma MovesKeepGroupsApart(a: Atlas, states: seq<GeoState>, cities: seq<GeoCity>, c: GeoCity, d: GeoCity)
    requires DistinctCityIds(cities) && c in cities && d in cities
    ensures var u := Plan(a, states, cities).cityStateUpdates;
            c.id in u && d.id in u && u[c.id] == u[d.id] ==> KeyOf(c) == KeyOf(d)
  {
    hide SharedTables, Resolve, StateKeys, CityUpdates, DistinctCityIds, KeyOf;
    var w := WorldOf(a, states, cities, SharedTables(a, states).iso);
    ResolveKeeps(w);
    var i := IndexOf(cities, c);
    var j := IndexOf(cities, d);
    UpdateAt(cities, Resolve(w).byGroup, |cities|, i);
    UpdateAt(cities, Resolve(w).byGroup, |cities|, j);
  }

  // ---------------------------------------------------------------------------------
  // Applying the plan and running again

  function Repoint(c: GeoCity, updates: map<int, int>): GeoCity {
    if c.id in updates then c.(stateId := updates[c.id]) else c
  }

  function RepointAll(cities: seq<GeoCity>, updates: map<int, int>): (r: seq<GeoCity>)
    ensures |r| == |cities| && forall i :: 0 <= i < |r| ==> r[i] == Repoint(cities[i], updates)
  {
    seq(|cities|, i requires 0 <= i < |cities| => Repoint(cities[i], updates))
  }

  /** Once moved, no city has another state to move to. */
  lemma {:induction false} NothingToMove(cities: seq<GeoCity>, byGroup: map<string, int>, n: nat)
    requires n <= |cities| && DistinctCityIds(cities)
    ensures var moved := RepointAll(cities, CityUpdates(cities, byGroup, |cities|));
            && CityUpdates(moved, byGroup, n) == map[]
            && Unresolved(moved, byGroup, n) == Unresolved(cities, byGroup, n)
  {
    if n > 0 {
      hide KeyOf, DistinctCityIds;
      NothingToMove(cities, byGroup, n - 1);
      UpdateAt(cities, byGroup, |cities|, n - 1);
      SameKey(cities[n - 1], CityUpdates(cities, byGroup, |cities|));
    }
  }

  lemma SameKey(c: GeoCity, updates: map<int, int>)
    ensures KeyOf(Repoint(c, updates)) == KeyOf(c)
  {
  }

  /** The repaired rows look the same to the city phase. */
  lemma SameWorld(a: Atlas, states: seq<GeoState>, cities: seq<GeoCity>,
                  back: map<int, string>, updates: map<int, int>, iso: map<int, string>)
    ensures WorldOf(a, RefillAll(states, back), RepointAll(cities, updates), iso) == WorldOf(a, states, cities, iso)
  {
    hide StateKeys;
    assert Places(RefillAll(states, back)) == Places(states);
    assert Labels(RepointAll(cities, updates)) == Labels(cities);
  }

  /** The same states stay without a code. */
  lemma SameUnmatched(a: Atlas, states: seq<GeoState>, u: GeoState)
    requires DistinctIds(states) && PackageCoded(a)
    ensures var t := MatchStates(a, states);
            var t' := MatchStates(a, RefillAll(states, t.back));
            t'.iso == t.iso ==> (u in t'.unmatched <==> u in t.unmatched)
  {
    hide MatchStates, Matched, DistinctIds;
    var t := MatchStates(a, states);
    var states' := RefillAll(states, t.back);
    assert DistinctIds(states') by { RefillDistinct(states, t.back); }
    UnmatchedAt(a, states, u);
    UnmatchedAt(a, states', u);
    if u in states {
      var i :| 0 <= i < |states| && states[i] == u;
      StateAt(a, states, u);
      assert states'[i] == Refill(u, t.back);
    }
    if u in states' {
      var i :| 0 <= i < |states'| && states'[i] == u;
      StateAt(a, states, states[i]);
    }
  }

  /** Running the repair again on the repaired rows finds nothing to change exactly when no
      unmatched state could still be matched; it then leaves the same rows open and counts
      the same cities. */
  lemma RepairTwice(a: Atlas, states: seq<GeoState>, cities: seq<GeoCity>)
    requires DistinctIds(states) && DistinctCityIds(cities) && PackageCoded(a)
    ensures var p := Plan(a, states, cities);
            var q := Plan(a, RefillAll(states, p.stateIsoBackfills), RepointAll(cities, p.cityStateUpdates));
            && (q.stateIsoBackfills == map[] && q.cityStateUpdates == map[] <==> NothingLeft(a, states))
            && (NothingLeft(a, states) ==>
                  && q.unresolvedCities == p.unresolvedCities
                  && q.byStateCode == p.byStateCode && q.byGroupVote == p.byGroupVote && q.byCapitalName == p.byCapitalName
                  && forall u :: u in q.unmatchedStates <==> u in p.unmatchedStates)
  {
    hide MatchStates, SharedTables, Resolve, WorldOf, NothingLeft, DistinctIds, DistinctCityIds, PackageCoded;
    var t := MatchStates(a, states);
    SharedIsMerged(a, states);
    RefillDistinct(states, t.back);
    SharedIsMerged(a, RefillAll(states, t.back));
    var p := Plan(a, states, cities);
    StatesRerun(a, states);
    if NothingLeft(a, states) {
      SameWorld(a, states, cities, t.back, p.cityStateUpdates, t.iso);
      NothingToMove(cities, GroupStates(a, states, cities).byGroup, |cities|);
      forall u
        ensures u in MatchStates(a, RefillAll(states, t.back)).unmatched <==> u in t.unmatched
      {
        SameUnmatched(a, states, u);
      }
    }
  }

  lemma HeadInside(ss: seq<GeoState>)
    ensures ss == [] || ss[0] in ss
  {
  }

  /** In particular a plan that matched every state is final. */
  lemma MatchedPlanIsFinal(a: Atlas, states: seq<GeoState>, cities: seq<GeoCity>)
    requires DistinctIds(states) && DistinctCityIds(cities) && PackageCoded(a)
    ensures var p := Plan(a, states, cities);
            var q := Plan(a, RefillAll(states, p.stateIsoBackfills), RepointAll(cities, p.cityStateUpdates));
            p.unmatchedStates == [] ==>
              && q.stateIsoBackfills == map[] && q.cityStateUpdates == map[]
              && q.unresolvedCities == p.unresolvedCities && q.unmatchedStates == []
  {
    hide MatchStates, SharedTables, Resolve, WorldOf, DistinctIds, DistinctCityIds, PackageCoded, Stuck, CityUpdates, Unresolved;
    SharedIsMerged(a, states);
    RepairTwice(a, states, cities);
    assert MatchStates(a, states).unmatched == [] ==> NothingLeft(a, states);
    var p := Plan(a, states, cities);
    var q := Plan(a, RefillAll(states, p.stateIsoBackfills), RepointAll(cities, p.cityStateUpdates));
    HeadInside(q.unmatchedStates);
  }
}

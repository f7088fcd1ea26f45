/** Two repairs with a small invented package. One is not final: the first state is left
    unmatched because two package states fit it equally well, a later state then takes one of
    them, and the second run gives the first state the other. The other replaces a stored code. */
module GeoLateMatch {
  import opened Outcomes
  import opened GeoData
  import opened GeoStates
  import opened GeoRerun
  import opened GeoTables
  import E = EditDistance
  import opened GeoPlan

  function Same(s: string): string {
    s
  }

  function TwoStates(cc: string): seq<PkgState> {
    [PkgState("abc", "1"), PkgState("abcx", "2")]
  }

  function NoCities(cc: string): seq<PkgCity> {
    []
  }

  const SMALL := Atlas(TwoStates, NoCities, Same, Same, Same)

  const EARLY := GeoState(1, "abcd", "X", "")

  const LATE := GeoState(2, "yabc", "X", "")

  lemma {:induction false} InsertInFront(c: char, s: string)
    ensures E.Distance(s, [c] + s) <= 1
  {
    if s != [] {
      InsertInFront(c, E.Init(s));
      assert E.Init([c] + s) == [c] + E.Init(s) && E.Last([c] + s) == E.Last(s);
      E.DistanceStep(s, [c] + s);
    }
  }

  /** Names that differ in their last letters and in every shortening are two edits apart. */
  lemma TwoEdits(x: string, y: string)
    requires x != [] && y != [] && E.Last(x) != E.Last(y)
    requires E.Init(x) != y && x != E.Init(y) && E.Init(x) != E.Init(y)
    ensures E.Distance(x, y) >= 2
  {
    hide E.Distance;
    E.DistanceStep(x, y);
    E.DistanceZeroIffEqual(E.Init(x), y);
    E.DistanceZeroIffEqual(x, E.Init(y));
    E.DistanceZeroIffEqual(E.Init(x), E.Init(y));
  }

  lemma Distances(p: string, q: string, u: string, v: string)
    requires p == "abc" && q == "abcx" && u == "abcd" && v == "yabc"
    ensures E.Distance(p, u) == 1 && E.Distance(q, u) == 1
    ensures E.Distance(p, v) == 1 && E.Distance(q, v) >= 2
  {
    hide E.Distance;
    E.DistanceZeroIffEqual(p, u);
    E.DistanceZeroIffEqual(q, u);
    E.DistanceZeroIffEqual(p, v);
    E.DistanceZeroIffEqual(p, p);
    E.DistanceSteps(p, p, 'x', 'd');
    assert p + ['d'] == u && p + ['x'] == q && ['y'] + p == v;
    InsertInFront('y', p);
    assert E.Init(q) == p && E.Init(v) == "yab";
    TwoEdits(q, v);
  }

  lemma Scores(p: string, q: string, u: string, v: string)
    requires p == "abc" && q == "abcx" && u == "abcd" && v == "yabc"
    ensures Score(SMALL, PkgState(p, "1"), u) == 0.75
    ensures Score(SMALL, PkgState(q, "2"), u) == 0.75
    ensures Score(SMALL, PkgState(p, "1"), v) == 0.75
    ensures Score(SMALL, PkgState(q, "2"), v) <= 0.5
  {
    hide E.Distance;
    Distances(p, q, u, v);
    assert 1.0 / 4.0 == 0.25;
    assert E.Distance(q, v) as real / 4.0 >= 2.0 / 4.0;
  }

  lemma {:induction false} NoneMatches(rule: Rule, pkgs: seq<PkgState>, name: string)
    requires forall p :: p in pkgs ==> !Matches(SMALL, "X", rule, p, name)
    ensures Matching(SMALL, "X", rule, pkgs, name) == []
  {
    hide Matches;
    if pkgs != [] {
      NoneMatches(rule, pkgs[..|pkgs| - 1], name);
    }
  }

  lemma NoCandidate(rule: Rule, used: set<string>, name: string)
    requires name == "abcd" || name == "yabc"
    ensures Candidates(SMALL, "X", rule, used, name) == []
  {
    hide Matching;
    var pkgs := Unused(SMALL.statesOf("X"), used);
    forall p | p in pkgs
      ensures !Matches(SMALL, "X", rule, p, name)
    {
      assert p == PkgState("abc", "1") || p == PkgState("abcx", "2");
      assert AliasOf("X", p.isoCode) == "";
    }
    NoneMatches(rule, pkgs, name);
  }

  lemma {:induction false} PassIdles(rule: Rule, n: nat)
    requires n <= 2
    ensures Pass(SMALL, "X", rule, [EARLY, LATE], NoMatch, n) == NoMatch
  {
    hide Candidates;
    if n > 0 {
      PassIdles(rule, n - 1);
      NoCandidate(rule, {}, [EARLY, LATE][n - 1].name);
    }
  }

  lemma Free(used: set<string>)
    requires "2" !in used
    ensures Unused(SMALL.statesOf("X"), used) ==
            (if "1" in used then [] else [PkgState("abc", "1")]) + [PkgState("abcx", "2")]
  {
    var one, two := PkgState("abc", "1"), PkgState("abcx", "2");
    assert [one, two][..1] == [one] && [one][..0] == [];
    assert Unused([one], used) == if "1" in used then [] else [one];
  }

  /** The first run: the early state has no clear winner, the late one takes code 1. */
  lemma FirstRun()
    ensures var m := CountryMatch(SMALL, "X", [EARLY, LATE]);
            m.unmatched == [EARLY] && m.used == {"1"}
  {
    hide Pass, FuzzyPick;
    var ss := [EARLY, LATE];
    assert Keep(ss, 0) == NoMatch && Keep(ss, 1) == NoMatch && Keep(ss, 2) == NoMatch;
    PassIdles(Alias, 2);
    PassIdles(Exact, 2);
    PassIdles(Loose, 2);
    Tie();
    OnlyFirst();
    assert Fuzzy(SMALL, "X", ss, NoMatch, 0) == NoMatch;
    assert Fuzzy(SMALL, "X", ss, NoMatch, 1) == NoMatch.(unmatched := [EARLY]);
    assert Fuzzy(SMALL, "X", ss, NoMatch, 2).unmatched == [EARLY];
  }

  lemma Tie()
    ensures FuzzyPick(SMALL, "X", {}, "abcd").None?
  {
    hide Score, Unused;
    Scores("abc", "abcx", "abcd", "yabc");
    Free({});
    var pkgs := Unused(SMALL.statesOf("X"), {});
    forall i
      ensures !ClearWinner(SMALL, pkgs, "abcd", i)
    {
      assert i == 0 ==> Score(SMALL, pkgs[1], "abcd") == 0.75;
      assert i == 1 ==> Score(SMALL, pkgs[0], "abcd") == 0.75;
    }
  }

  lemma OnlyFirst()
    ensures FuzzyPick(SMALL, "X", {}, "yabc") == Some(PkgState("abc", "1"))
  {
    hide Score, Unused;
    Scores("abc", "abcx", "abcd", "yabc");
    Free({});
    assert ClearWinner(SMALL, Unused(SMALL.statesOf("X"), {}), "yabc", 0);
  }

  lemma SecondChance()
    ensures FuzzyPick(SMALL, "X", {"1"}, "abcd").Some?
  {
    hide Score, Unused;
    Scores("abc", "abcx", "abcd", "yabc");
    Free({"1"});
    assert ClearWinner(SMALL, Unused(SMALL.statesOf("X"), {"1"}), "abcd", 0);
  }

  /** The second run of this repair stores a further code. */
  lemma RepairNotFinal()
    ensures var p := Plan(SMALL, [EARLY, LATE], []);
            Plan(SMALL, RefillAll([EARLY, LATE], p.stateIsoBackfills), RepointAll([], p.cityStateUpdates)).stateIsoBackfills != map[]
  {
    hide Plan, MatchStates, CountryMatch, FuzzyPick, Candidates;
    var ss := [EARLY, LATE];
    assert CountryStates(ss, "X") == ss by {
      MembersStep([], EARLY, CountryOf, "X");
      MembersStep([EARLY], LATE, CountryOf, "X");
      assert [] + [EARLY] == [EARLY] && [EARLY] + [LATE] == ss;
    }
    FirstRun();
    SecondChance();
    UnmatchedAt(SMALL, ss, EARLY);
    assert EARLY in [EARLY] && EARLY in ss;
    StatesRerun(SMALL, ss);
    assert !Stuck(SMALL, "X", {"1"}, "abcd");
    PlanBackfills(SMALL, ss, []);
    PlanBackfills(SMALL, RefillAll(ss, MatchStates(SMALL, ss).back), RepointAll([], Plan(SMALL, ss, []).cityStateUpdates));
  }

  lemma PlanBackfills(a: Atlas, states: seq<GeoState>, cities: seq<GeoCity>)
    requires DistinctIds(states)
    ensures Plan(a, states, cities).stateIsoBackfills == MatchStates(a, states).back
  {
    hide MatchStates, SharedTables, DistinctIds;
    SharedIsMerged(a, states);
  }

  // ---------------------------------------------------------------------------------
  // A stored code that is replaced

  const HOLDER := GeoState(1, "q", "X", "1")

  const REPEATER := GeoState(2, "abcx", "X", "1")

  /** A code that repeats an earlier one does not count; the exact name then finds code 2. */
  lemma SecondHolderMatched()
    ensures var m := CountryMatch(SMALL, "X", [HOLDER, REPEATER]); REPEATER.id in m.back && m.back[REPEATER.id] == "2"
  {
    hide Candidates, FuzzyPick, Passes, Fuzzy, FromPackage, Sound;
    var ss := [HOLDER, REPEATER];
    var k := Match(map[1 := "1"], map[], {"1"}, []);
    assert Keep(ss, 0) == NoMatch && Keep(ss, 1) == k && Keep(ss, 2) == k;
    KeepSound(ss, 2);
    NothingNew(SMALL, "X", k);
    ExactOnly();
    var m2 := Take(k, 2, "2");
    assert FromPackage(SMALL, "X", m2) && Sound(m2) by { TakeSecond(k); }
    PassSound(SMALL, "X", Loose, ss, m2, 2);
    var p := Pass(SMALL, "X", Loose, ss, m2, 2);
    PassesAre(ss, k, m2);
    FuzzySound(SMALL, "X", ss, p, 2);
    assert 2 in m2.back;
  }

  lemma TakeSecond(k: Match)
    requires k == Match(map[1 := "1"], map[], {"1"}, [])
    ensures Sound(Take(k, 2, "2")) && FromPackage(SMALL, "X", Take(k, 2, "2"))
  {
    assert k.iso[1] == "1";
    assert Sound(k);
    assert PkgState("abcx", "2") in SMALL.statesOf("X") by { assert TwoStates("X")[1] == PkgState("abcx", "2"); }
    TakeStep(SMALL, "X", k, 2, PkgState("abcx", "2"));
  }

  lemma PassesAre(ss: seq<GeoState>, k: Match, m2: Match)
    requires Pass(SMALL, "X", Alias, ss, k, |ss|) == k && Pass(SMALL, "X", Exact, ss, k, |ss|) == m2
    ensures Passes(SMALL, "X", ss, k) == Pass(SMALL, "X", Loose, ss, m2, |ss|)
  {
    hide Pass;
  }

  lemma ExactOnly()
    ensures var ss := [HOLDER, REPEATER];
            var k := Match(map[1 := "1"], map[], {"1"}, []);
            Pass(SMALL, "X", Alias, ss, k, 2) == k && Pass(SMALL, "X", Exact, ss, k, 2) == Take(k, 2, "2")
  {
    hide Candidates;
    var ss := [HOLDER, REPEATER];
    var k := Match(map[1 := "1"], map[], {"1"}, []);
    OneExact();
    assert Pass(SMALL, "X", Alias, ss, k, 1) == k;
    assert Pass(SMALL, "X", Exact, ss, k, 1) == k;
  }

  lemma OneExact()
    ensures Candidates(SMALL, "X", Alias, {"1"}, "abcx") == []
    ensures Candidates(SMALL, "X", Exact, {"1"}, "abcx") == [PkgState("abcx", "2")]
  {
    hide Unused;
    Free({"1"});
    var two := PkgState("abcx", "2");
    var free := Unused(SMALL.statesOf("X"), {"1"});
    assert free == [two];
    OneOffered(Alias, two, "abcx");
    OneOffered(Exact, two, "abcx");
    assert AliasOf("X", "2") == "";
  }

  lemma OneOffered(rule: Rule, p: PkgState, name: string)
    ensures Matching(SMALL, "X", rule, [p], name) == if Matches(SMALL, "X", rule, p, name) then [p] else []
  {
    assert [p][..0] == [];
  }

  /** The plan replaces the second state's stored code "1" by "2". */
  lemma RepeatedCodeOverwritten()
    ensures var back := Plan(SMALL, [HOLDER, REPEATER], []).stateIsoBackfills;
            REPEATER.isoCode != "" && REPEATER.id in back && back[REPEATER.id] == "2"
  {
    hide Plan, MatchStates, CountryMatch;
    var ss := [HOLDER, REPEATER];
    assert CountryStates(ss, "X") == ss by {
      MembersStep([], HOLDER, CountryOf, "X");
      MembersStep([HOLDER], REPEATER, CountryOf, "X");
      assert [] + [HOLDER] == [HOLDER] && [HOLDER] + [REPEATER] == ss;
    }
    SecondHolderMatched();
    assert ss[1] == REPEATER && REPEATER in ss;
    TablesAt(SMALL, ss, REPEATER);
    PlanBackfills(SMALL, ss, []);
  }
}

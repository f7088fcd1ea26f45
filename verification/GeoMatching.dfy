/** The loops of the state matching, each proved to compute the fold that specifies it. */
module GeoMatching {
  import opened Outcomes
  import opened GeoData
  import opened GeoStates
  import EditDistance
  import Decisions = GeoDecisions
  import Ranking

  datatype Scored = Scored(isoCode: string, score: real)

  function ScoreOf(x: Scored): real {
    x.score
  }

  ghost predicate ScoresOf(a: Atlas, pkgs: seq<PkgState>, dbName: string, scored: seq<Scored>) {
    && |scored| == |pkgs|
    && forall i :: 0 <= i < |pkgs| ==> scored[i] == Scored(pkgs[i].isoCode, Score(a, pkgs[i], dbName))
  }

  method ScoreAll(a: Atlas, pkgs: seq<PkgState>, dbName: string) returns (scored: seq<Scored>)
    ensures ScoresOf(a, pkgs, dbName, scored)
  {
    scored := [];
    for i := 0 to |pkgs|
      invariant |scored| == i
      invariant forall k :: 0 <= k < i ==> scored[k] == Scored(pkgs[k].isoCode, Score(a, pkgs[k], dbName))
    {
      var score := EditDistance.ComputeSimilarity(a.loose(pkgs[i].name), a.loose(dbName));
      scored := scored + [Scored(pkgs[i].isoCode, score)];
    }
  }

  /** The code of a fuzzy pick. */
  ghost function PickedCode(pick: Option<PkgState>): Option<string> {
    match pick
    case Some(pkg) => Some(pkg.isoCode)
    case None => None
  }

  method FuzzyBest(a: Atlas, cc: string, used: set<string>, dbName: string) returns (code: Option<string>)
    ensures code == PickedCode(FuzzyPick(a, cc, used, dbName))
    ensures code.Some? <==> exists p :: Decisions.Wins(a, cc, 4, used, dbName, p)
    ensures forall p :: Decisions.Wins(a, cc, 4, used, dbName, p) ==> code == Some(p.isoCode)
  {
    hide FuzzyPick, Decisions.Wins;
    forall p
      ensures Decisions.Wins(a, cc, 4, used, dbName, p) <==> FuzzyPick(a, cc, used, dbName) == Some(p)
    {
      Decisions.SoleNearest(a, cc, used, dbName, p);
    }
    var pkgs := Unused(a.statesOf(cc), used);
    var scored := ScoreAll(a, pkgs, dbName);
    var sorted := Ranking.SortDesc(scored, ScoreOf);
    BestIsClearWinner(a, cc, used, dbName, scored);
    if |sorted| > 0 && sorted[0].score >= FUZZY_STATE_MATCH_THRESHOLD
       && (|sorted| == 1 || sorted[1].score < sorted[0].score)
    {
      code := Some(sorted[0].isoCode);
    } else {
      code := None;
    }
  }

  /** Testing the two best of the sorted scores finds the clear winner, and only that. */
  lemma BestIsClearWinner(a: Atlas, cc: string, used: set<string>, dbName: string, scored: seq<Scored>)
    requires ScoresOf(a, Unused(a.statesOf(cc), used), dbName, scored)
    ensures var sorted := Ranking.SortDesc(scored, ScoreOf);
            PickedCode(FuzzyPick(a, cc, used, dbName)) ==
            if |sorted| > 0 && sorted[0].score >= FUZZY_STATE_MATCH_THRESHOLD
               && (|sorted| == 1 || sorted[1].score < sorted[0].score)
            then Some(sorted[0].isoCode) else None
  {
    hide Score, Unused, Ranking.SoleTop, Ranking.SortDesc;
    var pkgs := Unused(a.statesOf(cc), used);
    var sorted := Ranking.SortDesc(scored, ScoreOf);
    forall i
      ensures ClearWinner(a, pkgs, dbName, i) <==>
              Ranking.TopAt(scored, ScoreOf, i) && scored[i].score >= FUZZY_STATE_MATCH_THRESHOLD
    {
    }
    if i :| ClearWinner(a, pkgs, dbName, i) {
      Ranking.TopAtIsSoleTop(scored, ScoreOf, scored[i]);
      Ranking.HeadIsSoleTop(scored, ScoreOf, scored[i]);
      OneWinner(a, pkgs, dbName, i);
    } else if |sorted| > 0 {
      Ranking.TopAtIsSoleTop(scored, ScoreOf, sorted[0]);
      Ranking.HeadIsSoleTop(scored, ScoreOf, sorted[0]);
    }
  }

  lemma OneWinner(a: Atlas, pkgs: seq<PkgState>, dbName: string, i: int)
    requires ClearWinner(a, pkgs, dbName, i)
    ensures forall j :: ClearWinner(a, pkgs, dbName, j) ==> j == i
  {
  }

  method KeepExisting(ss: seq<GeoState>, m0: Match) returns (m: Match)
    ensures m == KeepFrom(ss, m0, |ss|)
  {
    m := m0;
    for i := 0 to |ss|
      invariant m == KeepFrom(ss, m0, i)
    {
      if ss[i].isoCode != "" && ss[i].isoCode !in m.used {
        m := m.(iso := m.iso[ss[i].id := ss[i].isoCode], used := m.used + {ss[i].isoCode});
      }
    }
  }

  method MatchPass(a: Atlas, cc: string, rule: Rule, ss: seq<GeoState>, m0: Match) returns (m: Match)
    ensures m == Pass(a, cc, rule, ss, m0, |ss|)
  {
    hide Candidates;
    m := m0;
    for i := 0 to |ss|
      invariant m == Pass(a, cc, rule, ss, m0, i)
    {
      if ss[i].id in m.iso {
        continue;
      }
      var candidates := Candidates(a, cc, rule, m.used, ss[i].name);
      if 1 == |candidates| {
        var code := candidates[0].isoCode;
        m := m.(iso := m.iso[ss[i].id := code], back := m.back[ss[i].id := code], used := m.used + {code});
      }
    }
  }

  method FuzzyPass(a: Atlas, cc: string, ss: seq<GeoState>, m0: Match) returns (m: Match)
    ensures m == Fuzzy(a, cc, ss, m0, |ss|)
  {
    hide FuzzyPick;
    m := m0;
    for i := 0 to |ss|
      invariant m == Fuzzy(a, cc, ss, m0, i)
    {
      if ss[i].id in m.iso {
        continue;
      }
      var best := FuzzyBest(a, cc, m.used, ss[i].name);
      if best.Some? {
        m := m.(iso := m.iso[ss[i].id := best.value], back := m.back[ss[i].id := best.value], used := m.used + {best.value});
      } else {
        m := m.(unmatched := m.unmatched + [ss[i]]);
      }
    }
  }

  method MatchCountry(a: Atlas, cc: string, ss: seq<GeoState>, m0: Match) returns (m: Match)
    ensures m == MatchFrom(a, cc, ss, m0)
  {
    hide Pass, Fuzzy, KeepFrom;
    m := KeepExisting(ss, m0);
    m := MatchPass(a, cc, Alias, ss, m);
    m := MatchPass(a, cc, Exact, ss, m);
    m := MatchPass(a, cc, Loose, ss, m);
    m := FuzzyPass(a, cc, ss, m);
  }
}

/** What each pass of the state matching decides, in terms of the names themselves: the sole
    package state that fits, and at the end the one that the cheapest edits lead to. */
module GeoDecisions {
  import opened Outcomes
  import opened GeoData
  import opened GeoStates
  import opened GeoRerun
  import EditDistance
  import Ranking

  // ---------------------------------------------------------------------------------
  // Scores by edit scripts

  /** The cheapest script of edits from x to y costs c. */
  ghost predicate Costs(x: string, y: string, c: nat) {
    && (exists script :: EditDistance.Turns(script, x, y) && EditDistance.ScriptCost(script) == c)
    && (forall script :: EditDistance.Turns(script, x, y) ==> c <= EditDistance.ScriptCost(script))
  }

  function Span(x: string, y: string): nat {
    if |x| < |y| then |y| else |x|
  }

  /** At most a quarter of the longer loose name has to be edited. */
  ghost predicate Near(a: Atlas, p: PkgState, name: string) {
    a.loose(name) != "" && exists c: nat :: Costs(a.loose(p.name), a.loose(name), c) && 4 * c <= Span(a.loose(p.name), a.loose(name))
  }

  /** Relative to the longer name, p is strictly cheaper to edit into the name than q. */
  ghost predicate Nearer(a: Atlas, p: PkgState, q: PkgState, name: string) {
    exists c: nat, d: nat ::
      && Costs(a.loose(p.name), a.loose(name), c) && Costs(a.loose(q.name), a.loose(name), d)
      && c * Span(a.loose(q.name), a.loose(name)) < d * Span(a.loose(p.name), a.loose(name))
  }

  lemma CostsDistance(x: string, y: string, c: nat)
    ensures Costs(x, y, c) <==> c == EditDistance.Distance(x, y)
  {
    EditDistance.DistanceIsLeastCost(x, y);
  }

  lemma NoEdits(x: string, y: string)
    ensures EditDistance.Distance("", y) == |y|
    ensures x != "" ==> EditDistance.Distance(x, "") == |x|
  {
  }

  lemma Scaled(x: real, y: real, n: real)
    requires n > 0.0
    ensures x <= y <==> x * n <= y * n
  {
    if x <= y {
      assert (y - x) * n >= 0.0;
    } else {
      assert (x - y) * n > 0.0;
    }
  }

  lemma QuarterOf(r: real, e: real, m: real)
    requires m > 0.0 && r * m == e
    ensures 1.0 - r >= 0.75 <==> 4.0 * e <= m
  {
    Scaled(r, 0.25, m);
  }

  lemma Fraction(d: nat, n: nat) returns (r: real)
    requires n > 0
    ensures r == d as real / n as real && r * n as real == d as real
  {
    r := d as real / n as real;
  }

  lemma Threshold(d: nat, n: nat)
    requires n > 0
    ensures 1.0 - d as real / n as real >= 0.75 <==> 4 * d <= n
  {
    var r := Fraction(d, n);
    QuarterOf(r, d as real, n as real);
    assert 4.0 * d as real == (4 * d) as real;
  }

  lemma Crossed(x: real, c: real, m: real, y: real, d: real, n: real)
    requires m > 0.0 && n > 0.0 && x * m == c && y * n == d
    ensures 1.0 - y < 1.0 - x <==> c * n < d * m
  {
    Products(x, m, n);
    Products(y, n, m);
    assert m * n > 0.0;
    Scaled(y, x, m * n);
  }

  lemma Ratios(c: nat, m: nat, d: nat, n: nat)
    requires m > 0 && n > 0
    ensures 1.0 - d as real / n as real < 1.0 - c as real / m as real <==> c * n < d * m
  {
    var x := Fraction(c, m);
    var y := Fraction(d, n);
    Crossed(x, c as real, m as real, y, d as real, n as real);
    assert (c * n) as real == c as real * n as real && (d * m) as real == d as real * m as real;
  }

  lemma Products(x: real, m: real, n: real)
    ensures x * (m * n) == (x * m) * n && m * n == n * m
  {
  }

  /** The score of a package state against a non-empty name. */
  lemma ScoreIs(a: Atlas, p: PkgState, name: string)
    requires a.loose(name) != ""
    ensures Span(a.loose(p.name), a.loose(name)) > 0
    ensures Score(a, p, name) == 1.0 - EditDistance.Distance(a.loose(p.name), a.loose(name)) as real
                                       / Span(a.loose(p.name), a.loose(name)) as real
  {
    NoEdits(a.loose(p.name), a.loose(name));
  }

  lemma NearScore(a: Atlas, p: PkgState, name: string)
    ensures Near(a, p, name) <==> Score(a, p, name) >= 0.75
  {
    hide EditDistance.Distance, Costs, Score;
    var x, y := a.loose(p.name), a.loose(name);
    if y == "" {
      EmptyScore(a, p, name);
    } else {
      ScoreIs(a, p, name);
      CostsDistance(x, y, EditDistance.Distance(x, y));
      Threshold(EditDistance.Distance(x, y), Span(x, y));
      forall c: nat | Costs(x, y, c)
        ensures c == EditDistance.Distance(x, y)
      {
        CostsDistance(x, y, c);
      }
    }
  }

  lemma EmptyScore(a: Atlas, p: PkgState, name: string)
    requires a.loose(name) == ""
    ensures Score(a, p, name) == 0.0
  {
  }

  lemma NearerScore(a: Atlas, p: PkgState, q: PkgState, name: string)
    requires a.loose(name) != ""
    ensures Nearer(a, p, q, name) <==> Score(a, q, name) < Score(a, p, name)
  {
    hide EditDistance.Distance, Costs, Score;
    var x, z, y := a.loose(p.name), a.loose(q.name), a.loose(name);
    var c, d := EditDistance.Distance(x, y), EditDistance.Distance(z, y);
    ScoreIs(a, p, name);
    ScoreIs(a, q, name);
    CostsDistance(x, y, c);
    CostsDistance(z, y, d);
    Ratios(c, Span(x, y), d, Span(z, y));
    forall e: nat, f: nat | Costs(x, y, e) && Costs(z, y, f)
      ensures e == c && f == d
    {
      CostsDistance(x, y, e);
      CostsDistance(z, y, f);
    }
  }

  // ---------------------------------------------------------------------------------
  // Who gets the code of a package state

  /** How a package state fits a database name in passes 1 to 3: by its legacy name, by its
      name, or by its name without generic words. */
  predicate Fits(a: Atlas, cc: string, pass: nat, p: PkgState, name: string) {
    if pass == 1 then a.normalize(AliasOf(cc, p.isoCode)) == a.normalize(name)
    else if pass == 2 then a.normalize(p.name) == a.normalize(name)
    else a.loose(name) != "" && a.loose(p.name) == a.loose(name)
  }

  function RuleOf(pass: nat): Rule {
    if pass == 1 then Alias else if pass == 2 then Exact else Loose
  }

  predicate FreeIn(a: Atlas, cc: string, used: set<string>, p: PkgState) {
    p in a.statesOf(cc) && p.isoCode !in used
  }

  /** The one package state with a code not in use that this pass finds for the name; the
      last pass wants it near, and nearer than every other. */
  ghost predicate Wins(a: Atlas, cc: string, pass: nat, used: set<string>, name: string, p: PkgState) {
    && FreeIn(a, cc, used, p) && multiset(a.statesOf(cc))[p] == 1
    && if pass <= 3 then
         Fits(a, cc, pass, p, name) && forall q :: FreeIn(a, cc, used, q) && Fits(a, cc, pass, q, name) ==> q == p
       else
         Near(a, p, name) && forall q :: FreeIn(a, cc, used, q) && q != p ==> Nearer(a, p, q, name)
  }

  lemma UnusedCount(pkgs: seq<PkgState>, used: set<string>, p: PkgState)
    ensures multiset(Unused(pkgs, used))[p] == if p.isoCode in used then 0 else multiset(pkgs)[p]
  {
    var filtered := (s: seq<PkgState>) => Unused(s, used);
    var kept := (q: PkgState) => q.isoCode !in used;
    forall s: seq<PkgState>, q: PkgState
      ensures filtered(s + [q]) == filtered(s) + if kept(q) then [q] else []
    {
      assert (s + [q])[..|s|] == s;
    }
    FilterTimes(pkgs, filtered, kept, p);
  }

  lemma MatchingCount(a: Atlas, cc: string, rule: Rule, pkgs: seq<PkgState>, name: string, p: PkgState)
    ensures multiset(Matching(a, cc, rule, pkgs, name))[p] == if Matches(a, cc, rule, p, name) then multiset(pkgs)[p] else 0
  {
    hide Matches, Matching;
    var filtered := (s: seq<PkgState>) => Matching(a, cc, rule, s, name);
    var kept := (q: PkgState) => Matches(a, cc, rule, q, name);
    NothingMatching(a, cc, rule, name);
    forall s: seq<PkgState>, q: PkgState
      ensures filtered(s + [q]) == filtered(s) + if kept(q) then [q] else []
    {
      MatchingStep(a, cc, rule, s, name, q);
    }
    FilterTimes(pkgs, filtered, kept, p);
  }

  lemma NothingMatching(a: Atlas, cc: string, rule: Rule, name: string)
    ensures Matching(a, cc, rule, [], name) == []
  {
  }

  lemma MatchingStep(a: Atlas, cc: string, rule: Rule, pkgs: seq<PkgState>, name: string, q: PkgState)
    ensures Matching(a, cc, rule, pkgs + [q], name) ==
            Matching(a, cc, rule, pkgs, name) + if Matches(a, cc, rule, q, name) then [q] else []
  {
    hide Matches;
    assert (pkgs + [q])[..|pkgs|] == pkgs;
  }

  lemma CandidateCount(a: Atlas, cc: string, pass: nat, used: set<string>, name: string, p: PkgState)
    requires 1 <= pass <= 3
    ensures multiset(Candidates(a, cc, RuleOf(pass), used, name))[p] ==
            if p.isoCode !in used && Fits(a, cc, pass, p, name) then multiset(a.statesOf(cc))[p] else 0
    ensures p in Candidates(a, cc, RuleOf(pass), used, name) <==> FreeIn(a, cc, used, p) && Fits(a, cc, pass, p, name)
  {
    hide Unused, Matching;
    UnusedCount(a.statesOf(cc), used, p);
    MatchingCount(a, cc, RuleOf(pass), Unused(a.statesOf(cc), used), name, p);
    InCount(Candidates(a, cc, RuleOf(pass), used, name), p);
    InCount(a.statesOf(cc), p);
  }

  /** A pass has a sole candidate exactly when one package state wins it. */
  lemma SoleCandidate(a: Atlas, cc: string, pass: nat, used: set<string>, name: string, p: PkgState)
    requires 1 <= pass <= 3
    ensures Candidates(a, cc, RuleOf(pass), used, name) == [p] <==> Wins(a, cc, pass, used, name, p)
  {
    hide Candidates, Fits, FreeIn, RuleOf;
    var cs := Candidates(a, cc, RuleOf(pass), used, name);
    SoleItem(cs, p);
    forall q: PkgState
      ensures q in cs <==> FreeIn(a, cc, used, q) && Fits(a, cc, pass, q, name)
    {
      CandidateCount(a, cc, pass, used, name, q);
    }
    CandidateCount(a, cc, pass, used, name, p);
    assert FreeIn(a, cc, used, p) ==> p.isoCode !in used by { FreeCode(a, cc, used, p); }
  }

  lemma FreeCode(a: Atlas, cc: string, used: set<string>, p: PkgState)
    ensures FreeIn(a, cc, used, p) ==> p.isoCode !in used
  {
  }

  lemma FreeUnused(a: Atlas, cc: string, used: set<string>, p: PkgState)
    ensures p in Unused(a.statesOf(cc), used) <==> FreeIn(a, cc, used, p)
    ensures FreeIn(a, cc, used, p) ==> multiset(Unused(a.statesOf(cc), used))[p] == multiset(a.statesOf(cc))[p]
  {
    hide Unused;
    UnusedCount(a.statesOf(cc), used, p);
    InCount(a.statesOf(cc), p);
    InCount(Unused(a.statesOf(cc), used), p);
  }

  lemma PickIsTop(a: Atlas, cc: string, used: set<string>, name: string, p: PkgState, score: PkgState -> real)
    requires forall q :: score(q) == Score(a, q, name)
    ensures FuzzyPick(a, cc, used, name) == Some(p) <==>
            Ranking.SoleTop(multiset(Unused(a.statesOf(cc), used)), score, p) && score(p) >= 0.75
  {
    hide Unused, Score, Ranking.SoleTop;
    var pkgs := Unused(a.statesOf(cc), used);
    Ranking.TopAtIsSoleTop(pkgs, score, p);
    forall i
      ensures ClearWinner(a, pkgs, name, i) <==> Ranking.TopAt(pkgs, score, i) && score(pkgs[i]) >= 0.75
    {
    }
    if i :| ClearWinner(a, pkgs, name, i) {
      assert forall j :: ClearWinner(a, pkgs, name, j) ==> j == i;
      assert forall j :: Ranking.TopAt(pkgs, score, j) ==> j == i;
    }
  }

  /** The last pass picks a package state exactly when that one wins it. */
  lemma SoleNearest(a: Atlas, cc: string, used: set<string>, name: string, p: PkgState)
    ensures FuzzyPick(a, cc, used, name) == Some(p) <==> Wins(a, cc, 4, used, name, p)
  {
    hide Unused, Score, FreeIn, FuzzyPick, Near, Nearer;
    var score := (q: PkgState) => Score(a, q, name);
    PickIsTop(a, cc, used, name, p, score);
    FreeUnused(a, cc, used, p);
    NearScore(a, p, name);
    var pkgs := Unused(a.statesOf(cc), used);
    forall q: PkgState
      ensures q in multiset(pkgs) <==> FreeIn(a, cc, used, q)
    {
      FreeUnused(a, cc, used, q);
    }
    if Near(a, p, name) {
      assert a.loose(name) != "" by { NearMeans(a, p, name); }
      forall q: PkgState
        ensures Nearer(a, p, q, name) <==> score(q) < score(p)
      {
        NearerScore(a, p, q, name);
      }
    }
  }

  lemma NearMeans(a: Atlas, p: PkgState, name: string)
    requires Near(a, p, name)
    ensures a.loose(name) != ""
  {
  }

  // ---------------------------------------------------------------------------------
  // A whole country, step by step

  /** What pass `pass` does with a state: the first keeps a stored code that is not in use; the
      others give an uncoded state the code of the package state that wins it, and the last
      one gives up on a state that none wins. */
  ghost predicate Decided(a: Atlas, cc: string, pass: nat, s: GeoState, before: Match, after: Match) {
    if pass == 0 then
      after == if s.isoCode != "" && s.isoCode !in before.used
               then Match(before.iso[s.id := s.isoCode], before.back, before.used + {s.isoCode}, before.unmatched)
               else before
    else if s.id in before.iso then after == before
    else
      && (forall p :: Wins(a, cc, pass, before.used, s.name, p) ==>
            after == Match(before.iso[s.id := p.isoCode], before.back[s.id := p.isoCode], before.used + {p.isoCode}, before.unmatched))
      && ((forall p :: !Wins(a, cc, pass, before.used, s.name, p)) ==>
            after == if pass == 4 then before.(unmatched := before.unmatched + [s]) else before)
  }

  lemma KeepDecided(a: Atlas, cc: string, s: GeoState, m: Match)
    ensures Decided(a, cc, 0, s, m, KeepStep(s, m))
  {
  }

  lemma PassDecided(a: Atlas, cc: string, pass: nat, s: GeoState, m: Match)
    requires 1 <= pass <= 3
    ensures Decided(a, cc, pass, s, m, PassStep(a, cc, RuleOf(pass), s, m))
  {
    hide Candidates, Wins, RuleOf;
    var cs := Candidates(a, cc, RuleOf(pass), m.used, s.name);
    forall p
      ensures Wins(a, cc, pass, m.used, s.name, p) <==> cs == [p]
    {
      SoleCandidate(a, cc, pass, m.used, s.name, p);
    }
    if |cs| == 1 {
      assert cs == [cs[0]];
    }
  }

  lemma FuzzyDecided(a: Atlas, cc: string, s: GeoState, m: Match)
    ensures Decided(a, cc, 4, s, m, FuzzyStep(a, cc, s, m))
  {
    hide FuzzyPick, Wins;
    forall p
      ensures Wins(a, cc, 4, m.used, s.name, p) <==> FuzzyPick(a, cc, m.used, s.name) == Some(p)
    {
      SoleNearest(a, cc, m.used, s.name, p);
    }
  }

  /** The tables of one pass, from the one it starts with to the one it ends with. */
  ghost predicate PassRow(a: Atlas, cc: string, pass: nat, ss: seq<GeoState>, row: seq<Match>) {
    |row| == |ss| + 1 && forall i :: 0 <= i < |ss| ==> Decided(a, cc, pass, ss[i], row[i], row[i + 1])
  }

  lemma KeepRow(a: Atlas, cc: string, ss: seq<GeoState>, m: Match) returns (row: seq<Match>)
    ensures PassRow(a, cc, 0, ss, row) && row[0] == m && row[|ss|] == KeepFrom(ss, m, |ss|)
  {
    hide Decided, KeepStep;
    row := seq(|ss| + 1, i requires 0 <= i <= |ss| => KeepFrom(ss, m, i));
    forall i | 0 <= i < |ss|
      ensures Decided(a, cc, 0, ss[i], row[i], row[i + 1])
    {
      KeepDecided(a, cc, ss[i], row[i]);
    }
  }

  lemma RuleRow(a: Atlas, cc: string, pass: nat, ss: seq<GeoState>, m: Match) returns (row: seq<Match>)
    requires 1 <= pass <= 3
    ensures PassRow(a, cc, pass, ss, row) && row[0] == m && row[|ss|] == Pass(a, cc, RuleOf(pass), ss, m, |ss|)
  {
    hide Decided, PassStep, RuleOf;
    row := seq(|ss| + 1, i requires 0 <= i <= |ss| => Pass(a, cc, RuleOf(pass), ss, m, i));
    forall i | 0 <= i < |ss|
      ensures Decided(a, cc, pass, ss[i], row[i], row[i + 1])
    {
      PassDecided(a, cc, pass, ss[i], row[i]);
    }
  }

  lemma FuzzyRow(a: Atlas, cc: string, ss: seq<GeoState>, m: Match) returns (row: seq<Match>)
    ensures PassRow(a, cc, 4, ss, row) && row[0] == m && row[|ss|] == Fuzzy(a, cc, ss, m, |ss|)
  {
    hide Decided, FuzzyStep;
    row := seq(|ss| + 1, i requires 0 <= i <= |ss| => Fuzzy(a, cc, ss, m, i));
    forall i | 0 <= i < |ss|
      ensures Decided(a, cc, 4, ss[i], row[i], row[i + 1])
    {
      FuzzyDecided(a, cc, ss[i], row[i]);
    }
  }

  /** A country's matching is the five passes in their order, each state after state, with
      every decision as its pass demands. */
  lemma CountryDecided(a: Atlas, cc: string, ss: seq<GeoState>, m: Match) returns (rows: seq<seq<Match>>)
    ensures |rows| == 5 && forall pass :: 0 <= pass < 5 ==> |rows[pass]| == |ss| + 1 && PassRow(a, cc, pass, ss, rows[pass])
    ensures rows[0][0] == m && rows[4][|ss|] == MatchFrom(a, cc, ss, m)
    ensures forall pass :: 0 <= pass < 4 ==> rows[pass + 1][0] == rows[pass][|ss|]
  {
    hide PassRow, KeepFrom, Pass, Fuzzy;
    var k := KeepRow(a, cc, ss, m);
    RowEnds(a, cc, 0, ss, k);
    var m1 := RuleRow(a, cc, 1, ss, k[|ss|]);
    RowEnds(a, cc, 1, ss, m1);
    var m2 := RuleRow(a, cc, 2, ss, m1[|ss|]);
    RowEnds(a, cc, 2, ss, m2);
    var m3 := RuleRow(a, cc, 3, ss, m2[|ss|]);
    RowEnds(a, cc, 3, ss, m3);
    var f := FuzzyRow(a, cc, ss, m3[|ss|]);
    RowEnds(a, cc, 4, ss, f);
    rows := [k, m1, m2, m3, f];
  }

  lemma RowEnds(a: Atlas, cc: string, pass: nat, ss: seq<GeoState>, row: seq<Match>)
    requires PassRow(a, cc, pass, ss, row)
    ensures |row| == |ss| + 1
  {
  }

  /** On its own, a country starts from empty tables. */
  lemma StartsEmpty(a: Atlas, cc: string, ss: seq<GeoState>)
    ensures MatchFrom(a, cc, ss, NoMatch) == CountryMatch(a, cc, ss)
  {
    hide Pass, Fuzzy;
    KeepsAlike(ss, |ss|);
  }

  lemma {:induction false} KeepsAlike(ss: seq<GeoState>, n: nat)
    requires n <= |ss|
    ensures KeepFrom(ss, NoMatch, n) == Keep(ss, n)
  {
    hide KeepStep;
    if n > 0 {
      KeepsAlike(ss, n - 1);
    }
  }

  /** A state is stuck exactly if no package state wins it in any pass. */
  lemma StuckMeans(a: Atlas, cc: string, used: set<string>, name: string)
    ensures Stuck(a, cc, used, name) <==> forall pass, p :: 1 <= pass <= 4 ==> !Wins(a, cc, pass, used, name, p)
  {
    hide Candidates, FuzzyPick, Wins, RuleOf;
    forall pass: nat, p | 1 <= pass <= 3
      ensures Wins(a, cc, pass, used, name, p) <==> Candidates(a, cc, RuleOf(pass), used, name) == [p]
    {
      SoleCandidate(a, cc, pass, used, name, p);
    }
    forall p
      ensures Wins(a, cc, 4, used, name, p) <==> FuzzyPick(a, cc, used, name) == Some(p)
    {
      SoleNearest(a, cc, used, name, p);
    }
    StuckParts(a, cc, used, name);
    forall pass: nat | 1 <= pass <= 3
      ensures |Candidates(a, cc, RuleOf(pass), used, name)| == 1 <==> exists p :: Wins(a, cc, pass, used, name, p)
    {
      var cs := Candidates(a, cc, RuleOf(pass), used, name);
      if |cs| == 1 {
        assert cs == [cs[0]];
      }
    }
    if FuzzyPick(a, cc, used, name).Some? {
      assert Wins(a, cc, 4, used, name, FuzzyPick(a, cc, used, name).value);
    }
  }

  lemma StuckParts(a: Atlas, cc: string, used: set<string>, name: string)
    ensures Stuck(a, cc, used, name) <==>
            (forall pass: nat :: 1 <= pass <= 3 ==> |Candidates(a, cc, RuleOf(pass), used, name)| != 1)
            && FuzzyPick(a, cc, used, name).None?
  {
    hide Candidates, FuzzyPick;
    assert RuleOf(1) == Alias && RuleOf(2) == Exact && RuleOf(3) == Loose;
  }
}

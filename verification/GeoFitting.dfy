/** When stored codes are safe whatever the package says, for given text normalisers. A state
    that keeps no code gets one from the package that lists it under its own name, if that
    name is neither blank nor shared with an earlier state of its country. So where names tell
    the states of each country apart, only empty codes are filled by every package exactly
    if stored codes are unique. Names that are blank to the normalisers can protect a code. */
module GeoFitting {
  import opened Outcomes
  import opened GeoData
  import opened GeoStates
  import opened GeoRerun
  import opened GeoTables
  import opened GeoStoredCodes
  import E = EditDistance

  type Package = string -> seq<PkgState>

  /** The same normalisers with another package. */
  function With(a: Atlas, pkg: Package): Atlas {
    a.(statesOf := pkg)
  }

  /** Whatever the package, only states without a stored code get one. */
  ghost predicate AlwaysFillsEmptyOnly(a: Atlas, states: seq<GeoState>) {
    forall pkg: Package :: PackageCoded(With(a, pkg)) ==> FillsEmptyOnly(With(a, pkg), states)
  }

  /** The state's name is not blank, and no earlier state of its country has the same one. */
  ghost predicate NameIsFirst(a: Atlas, ss: seq<GeoState>, k: nat)
    requires k < |ss|
  {
    && a.normalize(ss[k].name) != a.normalize("")
    && forall j :: 0 <= j < k && ss[j].countryCode == ss[k].countryCode ==> a.normalize(ss[j].name) != a.normalize(ss[k].name)
  }

  /** Names tell the states of each country apart. */
  ghost predicate NamesDiffer(a: Atlas, states: seq<GeoState>) {
    forall k :: 0 <= k < |states| ==> NameIsFirst(a, states, k)
  }

  // ---------------------------------------------------------------------------------
  // The package that lists one state by its own name, and a blank one beside it

  function Longest(states: seq<GeoState>): (r: nat)
    ensures forall s :: s in states ==> |s.isoCode| <= r
  {
    if states == [] then 0
    else
      var s, rest := states[|states| - 1], Longest(states[..|states| - 1]);
      assert states == states[..|states| - 1] + [s];
      if |s.isoCode| >= rest then |s.isoCode| else rest
  }

  function Fresh(n: nat): string {
    seq(n, _ => 'x')
  }

  /** Codes longer than three letters have no alias. */
  lemma NoAlias(cc: string, iso: string)
    requires |iso| > 3
    ensures AliasOf(cc, iso) == ""
  {
  }

  function Named(n: nat, name: string): PkgState {
    PkgState(name, Fresh(n + 4))
  }

  function Blank(n: nat): PkgState {
    PkgState("", Fresh(n + 5))
  }

  function Listing(n: nat, name: string): Package {
    cc => [Named(n, name), Blank(n)]
  }

  lemma ListingCoded(a: Atlas, n: nat, name: string)
    ensures PackageCoded(With(a, Listing(n, name)))
  {
    assert |Fresh(n + 4)| > 0 && |Fresh(n + 5)| > 0;
  }

  /** Neither code is in use. */
  ghost predicate Free(n: nat, used: set<string>) {
    Fresh(n + 4) !in used && Fresh(n + 5) !in used
  }

  lemma BothUnused(a: Atlas, n: nat, name: string, used: set<string>, cc: string)
    requires Fresh(n + 4) !in used
    ensures Unused(With(a, Listing(n, name)).statesOf(cc), used) ==
            [Named(n, name)] + if Fresh(n + 5) in used then [] else [Blank(n)]
  {
    var one, two := Named(n, name), Blank(n);
    assert [one, two][..1] == [one] && [one][..0] == [];
    assert Unused([one], used) == [one];
  }

  lemma TwoMatching(a: Atlas, cc: string, rule: Rule, p: PkgState, rest: seq<PkgState>, name: string)
    requires |rest| <= 1
    ensures Matching(a, cc, rule, [p] + rest, name) ==
            (if Matches(a, cc, rule, p, name) then [p] else [])
            + (if rest != [] && Matches(a, cc, rule, rest[0], name) then [rest[0]] else [])
  {
    hide Matches;
    assert [p][..0] == [];
    assert Matching(a, cc, rule, [p], name) == if Matches(a, cc, rule, p, name) then [p] else [];
    if rest == [] {
      assert [p] + rest == [p];
    } else {
      assert ([p] + rest)[..1] == [p] && ([p] + rest)[1] == rest[0];
    }
  }

  /** In the alias pass a blank name fits both package states and any other fits none. */
  lemma NoAliasCandidate(a: Atlas, n: nat, name: string, cc: string, used: set<string>, dbName: string)
    requires Free(n, used)
    ensures |Candidates(With(a, Listing(n, name)), cc, Alias, used, dbName)| != 1
  {
    hide Unused, Matching;
    var b := With(a, Listing(n, name));
    BothUnused(a, n, name, used, cc);
    TwoMatching(b, cc, Alias, Named(n, name), [Blank(n)], dbName);
    assert |Fresh(n + 4)| > 3 && |Fresh(n + 5)| > 3;
    NoAlias(cc, Fresh(n + 4));
    NoAlias(cc, Fresh(n + 5));
  }

  lemma {:induction false} AliasIdle(a: Atlas, n: nat, name: string, cc: string, ss: seq<GeoState>, k: Match, i: nat)
    requires i <= |ss| && Free(n, k.used)
    ensures Pass(With(a, Listing(n, name)), cc, Alias, ss, k, i) == k
  {
    hide Candidates, Free, With;
    if i > 0 {
      AliasIdle(a, n, name, cc, ss, k, i - 1);
      NoAliasCandidate(a, n, name, cc, k.used, ss[i - 1].name);
    }
  }

  /** In the exact pass a state takes the named entry only if it has the name. */
  lemma ExactTakes(a: Atlas, n: nat, name: string, cc: string, used: set<string>, dbName: string)
    requires Fresh(n + 4) !in used && a.normalize(name) != a.normalize("")
    ensures var cs := Candidates(With(a, Listing(n, name)), cc, Exact, used, dbName);
            if a.normalize(dbName) == a.normalize(name) then cs == [Named(n, name)] else Named(n, name) !in cs && |cs| <= 1
  {
    hide Unused, Matching;
    var b := With(a, Listing(n, name));
    BothUnused(a, n, name, used, cc);
    assert |Fresh(n + 4)| == n + 4 && |Fresh(n + 5)| == n + 5;
    TwoMatching(b, cc, Exact, Named(n, name), if Fresh(n + 5) in used then [] else [Blank(n)], dbName);
  }

  /** Until the state with the name comes, the named entry stays free. */
  lemma {:induction false} NamedFree(a: Atlas, n: nat, name: string, cc: string, ss: seq<GeoState>, k: Match, i: nat)
    requires i <= |ss| && Fresh(n + 4) !in k.used && a.normalize(name) != a.normalize("")
    requires forall j :: 0 <= j < i ==> a.normalize(ss[j].name) != a.normalize(name)
    ensures Fresh(n + 4) !in Pass(With(a, Listing(n, name)), cc, Exact, ss, k, i).used
  {
    hide Candidates, With;
    if i > 0 {
      NamedFree(a, n, name, cc, ss, k, i - 1);
      var m := Pass(With(a, Listing(n, name)), cc, Exact, ss, k, i - 1);
      ExactTakes(a, n, name, cc, m.used, ss[i - 1].name);
      OnlyTheseCodes(a, n, name, cc, m.used, ss[i - 1].name);
    }
  }

  lemma OnlyTheseCodes(a: Atlas, n: nat, name: string, cc: string, used: set<string>, dbName: string)
    requires Fresh(n + 4) !in used && a.normalize(name) != a.normalize("") && a.normalize(dbName) != a.normalize(name)
    ensures forall p :: p in Candidates(With(a, Listing(n, name)), cc, Exact, used, dbName) ==> p.isoCode != Fresh(n + 4)
  {
    ExactTakes(a, n, name, cc, used, dbName);
    CandidateUnused(With(a, Listing(n, name)), cc, Exact, used, dbName);
    assert |Fresh(n + 4)| == n + 4 && |Fresh(n + 5)| == n + 5;
  }

  lemma {:induction false} PassKeepsId(a: Atlas, cc: string, rule: Rule, ss: seq<GeoState>, k: Match, i: nat, j: nat)
    requires i <= j <= |ss|
    ensures forall id :: id in Pass(a, cc, rule, ss, k, i).iso ==> id in Pass(a, cc, rule, ss, k, j).iso
  {
    hide Candidates;
    if i < j {
      PassKeepsId(a, cc, rule, ss, k, i, j - 1);
    }
  }

  /** The state the package lists ends up with a code. */
  lemma ListedIsMatched(a: Atlas, n: nat, cc: string, ss: seq<GeoState>, k: nat)
    requires k < |ss| && (forall s :: s in ss ==> |s.isoCode| <= n)
    requires a.normalize(ss[k].name) != a.normalize("")
    requires forall j :: 0 <= j < k ==> a.normalize(ss[j].name) != a.normalize(ss[k].name)
    ensures ss[k].id in CountryMatch(With(a, Listing(n, ss[k].name)), cc, ss).iso
  {
    hide Pass, Fuzzy, Keep, Candidates, With, Continues, Sound, FromPackage;
    var name := ss[k].name;
    var b := With(a, Listing(n, name));
    var kept := Keep(ss, |ss|);
    CodesFree(n, ss);
    AliasIdle(a, n, name, cc, ss, kept, |ss|);
    var exact := Pass(b, cc, Exact, ss, kept, |ss|);
    assert ss[k].id in exact.iso by {
      NamedFree(a, n, name, cc, ss, kept, k);
      var m := Pass(b, cc, Exact, ss, kept, k);
      ExactTakes(a, n, name, cc, m.used, name);
      ListedStep(b, cc, ss, kept, k, Named(n, name));
      PassKeepsId(b, cc, Exact, ss, kept, k + 1, |ss|);
    }
    PassKeepsId(b, cc, Loose, ss, exact, 0, |ss|);
    PassStart(b, cc, Loose, ss, exact);
    FuzzyKeepsId(b, cc, ss, Pass(b, cc, Loose, ss, exact, |ss|), |ss|);
  }

  lemma PassStart(a: Atlas, cc: string, rule: Rule, ss: seq<GeoState>, k: Match)
    ensures Pass(a, cc, rule, ss, k, 0) == k
  {
  }

  lemma ListedStep(a: Atlas, cc: string, ss: seq<GeoState>, m0: Match, k: nat, p: PkgState)
    requires k < |ss|
    requires Candidates(a, cc, Exact, Pass(a, cc, Exact, ss, m0, k).used, ss[k].name) == [p]
    ensures ss[k].id in Pass(a, cc, Exact, ss, m0, k + 1).iso
  {
    hide Candidates;
  }

  lemma {:induction false} FuzzyKeepsId(a: Atlas, cc: string, ss: seq<GeoState>, m: Match, n: nat)
    requires n <= |ss|
    ensures forall id :: id in m.iso ==> id in Fuzzy(a, cc, ss, m, n).iso
  {
    hide FuzzyPick;
    if n > 0 {
      FuzzyKeepsId(a, cc, ss, m, n - 1);
    }
  }

  /** Stored codes are too short to be the package's. */
  lemma CodesFree(n: nat, ss: seq<GeoState>)
    requires forall s :: s in ss ==> |s.isoCode| <= n
    ensures Free(n, Keep(ss, |ss|).used)
  {
    hide Keep;
    KeptCodes(ss, |ss|);
    assert |Fresh(n + 4)| > n && |Fresh(n + 5)| > n;
    assert forall j :: 0 <= j < |ss| ==> ss[j] in ss;
  }

  /** If a state keeps no code and its name is its own, some package gives it a new code. */
  lemma RepeatedCodeReplaced(a: Atlas, states: seq<GeoState>, k: nat) returns (pkg: Package)
    requires DistinctIds(states) && k < |states| && !FirstInCountry(states, k) && NameIsFirst(a, states, k)
    ensures PackageCoded(With(a, pkg)) && states[k].id in MatchStates(With(a, pkg), states).back
  {
    hide MatchStates, CountryMatch, FirstInCountry, DistinctIds, With, Listing, CountryStates;
    var s := states[k];
    var n := Longest(states);
    pkg := Listing(n, s.name);
    ListingCoded(a, n, s.name);
    var p := Position(states, k);
    var ss := CountryStates(states, s.countryCode);
    NamesBefore(a, states, k, p);
    ListedIsMatched(a, n, s.countryCode, ss, p);
    TablesAt(With(a, pkg), states, s);
    StoredCodeKept(With(a, pkg), states, k);
  }

  lemma NamesBefore(a: Atlas, states: seq<GeoState>, k: nat, p: nat)
    requires k < |states| && NameIsFirst(a, states, k)
    requires var ss := CountryStates(states, states[k].countryCode);
             p < |ss| && ss[..p] == CountryStates(states[..k], states[k].countryCode)
    ensures var ss := CountryStates(states, states[k].countryCode);
            forall j :: 0 <= j < p ==> a.normalize(ss[j].name) != a.normalize(states[k].name)
  {
    var ss := CountryStates(states, states[k].countryCode);
    forall j | 0 <= j < p
      ensures a.normalize(ss[j].name) != a.normalize(states[k].name)
    {
      assert ss[..p][j] in ss[..p] && ss[j] in states[..k];
      var i :| 0 <= i < k && states[..k][i] == ss[j];
      assert states[i] == ss[j];
    }
  }

  /** Where names tell states apart: whatever the package, only states without a stored code
      get one, exactly if stored codes are unique within each country. */
  lemma FillsEmptyOnlyIff(a: Atlas, states: seq<GeoState>)
    requires DistinctIds(states) && NamesDiffer(a, states)
    ensures AlwaysFillsEmptyOnly(a, states) <==> UniqueCodes(states)
  {
    hide MatchStates, FirstInCountry, DistinctIds, PackageCoded, With, NameIsFirst;
    if UniqueCodes(states) {
      forall pkg: Package | PackageCoded(With(a, pkg))
        ensures FillsEmptyOnly(With(a, pkg), states)
      {
        UniqueCodesStay(With(a, pkg), states);
      }
    } else {
      var k :| 0 <= k < |states| && states[k].isoCode != "" && !FirstInCountry(states, k);
      var pkg := RepeatedCodeReplaced(a, states, k);
      assert states[k] in states;
      assert PackageCoded(With(a, pkg)) && !FillsEmptyOnly(With(a, pkg), states);
    }
  }

  // ---------------------------------------------------------------------------------
  // Blank names can protect a repeated code

  const HOLDER := GeoState(1, "b", "X", "1")

  function Second(name: string): GeoState {
    GeoState(2, name, "X", "")
  }

  function Third(name: string): GeoState {
    GeoState(3, name, "X", "1")
  }

  /** Blank to the normalisers. */
  predicate IsBlank(a: Atlas, name: string) {
    a.normalize(name) == a.normalize("") && a.loose(name) == ""
  }

  lemma {:induction false} UnusedAre(pkgs: seq<PkgState>, used: set<string>)
    ensures forall p :: p in Unused(pkgs, used) <==> p in pkgs && p.isoCode !in used
  {
    if pkgs != [] {
      var n := |pkgs| - 1;
      UnusedAre(pkgs[..n], used);
      assert pkgs == pkgs[..n] + [pkgs[n]];
    }
  }

  lemma {:induction false} MatchingAre(a: Atlas, cc: string, rule: Rule, pkgs: seq<PkgState>, name: string)
    ensures forall p :: p in Matching(a, cc, rule, pkgs, name) <==> p in pkgs && Matches(a, cc, rule, p, name)
  {
    hide Matches;
    if pkgs != [] {
      var n := |pkgs| - 1;
      MatchingAre(a, cc, rule, pkgs[..n], name);
      assert pkgs == pkgs[..n] + [pkgs[n]];
    }
  }

  lemma CandidatesAre(a: Atlas, cc: string, rule: Rule, used: set<string>, name: string)
    ensures forall p :: p in Candidates(a, cc, rule, used, name) <==>
              p in a.statesOf(cc) && p.isoCode !in used && Matches(a, cc, rule, p, name)
  {
    hide Matches, Unused, Matching;
    UnusedAre(a.statesOf(cc), used);
    MatchingAre(a, cc, rule, Unused(a.statesOf(cc), used), name);
  }

  /** Once a sole candidate is taken, the next state of the same name has none. */
  lemma NoneAfterSole(a: Atlas, cc: string, rule: Rule, used: set<string>, name: string)
    requires |Candidates(a, cc, rule, used, name)| == 1
    ensures Candidates(a, cc, rule, used + {Candidates(a, cc, rule, used, name)[0].isoCode}, name) == []
  {
    hide Candidates, Matches;
    var cs := Candidates(a, cc, rule, used, name);
    var later := Candidates(a, cc, rule, used + {cs[0].isoCode}, name);
    CandidatesAre(a, cc, rule, used, name);
    CandidatesAre(a, cc, rule, used + {cs[0].isoCode}, name);
    assert forall p :: p in cs ==> p == cs[0];
    assert forall p :: p !in later;
    NothingIn(later);
  }

  lemma NothingIn(ps: seq<PkgState>)
    ensures ps == [] || ps[0] in ps
  {
  }

  /** In a country without aliases a blank name fits every package state in the alias pass,
      so what no alias fits, nothing fits exactly. */
  lemma BlankFitsAll(a: Atlas, used: set<string>, name: string)
    requires IsBlank(a, name) && Candidates(a, "X", Alias, used, name) == []
    ensures Candidates(a, "X", Exact, used, name) == []
  {
    hide Candidates;
    CandidatesAre(a, "X", Alias, used, name);
    CandidatesAre(a, "X", Exact, used, name);
    var cs := Candidates(a, "X", Exact, used, name);
    assert forall p: PkgState :: Matches(a, "X", Alias, p, name) by { NoAliases(a, name); }
    assert forall p :: p !in cs;
    NothingIn(cs);
  }

  lemma NoAliases(a: Atlas, name: string)
    requires IsBlank(a, name)
    ensures forall p: PkgState :: Matches(a, "X", Alias, p, name)
  {
    assert "X" !in STATE_NAME_ALIASES;
  }

  lemma BlankNeverLoose(a: Atlas, used: set<string>, name: string)
    requires IsBlank(a, name)
    ensures Candidates(a, "X", Loose, used, name) == []
  {
    hide Candidates;
    CandidatesAre(a, "X", Loose, used, name);
    NothingIn(Candidates(a, "X", Loose, used, name));
  }

  lemma BlankNeverFuzzy(a: Atlas, used: set<string>, name: string)
    requires IsBlank(a, name)
    ensures FuzzyPick(a, "X", used, name).None?
  {
    hide E.Distance, Unused;
  }

  /** Two states of one name in a row: the second has no code after a pass that starts with
      neither coded, or with the first coded and nothing left for the name. */
  lemma SecondGoesEmpty(a: Atlas, rule: Rule, name: string, m: Match)
    requires 1 in m.iso && 3 !in m.iso
    requires 2 in m.iso ==> Candidates(a, "X", rule, m.used, name) == []
    ensures var after := Pass(a, "X", rule, [HOLDER, Second(name), Third(name)], m, 3);
            && 1 in after.iso && 3 !in after.iso
            && (2 in after.iso ==> Candidates(a, "X", rule, after.used, name) == [])
            && (2 in m.iso || 2 !in after.iso ==> after == m)
  {
    hide Candidates;
    var ss := [HOLDER, Second(name), Third(name)];
    assert Pass(a, "X", rule, ss, m, 1) == m;
    var cs := Candidates(a, "X", rule, m.used, name);
    if |cs| == 1 {
      NoneAfterSole(a, "X", rule, m.used, name);
    }
    var two := Pass(a, "X", rule, ss, m, 2);
    assert two == PassStep(a, "X", rule, Second(name), m);
    assert Pass(a, "X", rule, ss, m, 3) == PassStep(a, "X", rule, Third(name), two);
  }

  lemma ThirdUnmatched(a: Atlas, name: string)
    requires IsBlank(a, name)
    ensures 3 !in CountryMatch(a, "X", [HOLDER, Second(name), Third(name)]).iso
  {
    hide Candidates, FuzzyPick, Pass, IsBlank;
    var ss := [HOLDER, Second(name), Third(name)];
    var kept := Match(map[1 := "1"], map[], {"1"}, []);
    assert Keep(ss, 1) == kept && Keep(ss, 2) == kept && Keep(ss, 3) == kept;
    SecondGoesEmpty(a, Alias, name, kept);
    var m1 := Pass(a, "X", Alias, ss, kept, 3);
    if 2 in m1.iso {
      BlankFitsAll(a, m1.used, name);
    }
    SecondGoesEmpty(a, Exact, name, m1);
    var m2 := Pass(a, "X", Exact, ss, m1, 3);
    BlankNeverLoose(a, m2.used, name);
    SecondGoesEmpty(a, Loose, name, m2);
    var m3 := Pass(a, "X", Loose, ss, m2, 3);
    FuzzyLeavesThird(a, name, m3);
  }

  lemma FuzzyLeavesThird(a: Atlas, name: string, m: Match)
    requires IsBlank(a, name) && 1 in m.iso && 3 !in m.iso
    ensures 3 !in Fuzzy(a, "X", [HOLDER, Second(name), Third(name)], m, 3).iso
  {
    hide FuzzyPick, IsBlank;
    var ss := [HOLDER, Second(name), Third(name)];
    assert Fuzzy(a, "X", ss, m, 1) == m;
    BlankNeverFuzzy(a, m.used, name);
    var two := Fuzzy(a, "X", ss, m, 2);
    assert 3 !in two.iso && two.used == m.used;
  }

  /** Rows with a repeated code that no package makes the script replace: the names of the
      last two states are blank, so the earlier one takes whatever could fit the later. */
  lemma BlankNamesProtect(a: Atlas, name: string)
    requires IsBlank(a, name)
    ensures var rows := [HOLDER, Second(name), Third(name)];
            DistinctIds(rows) && !UniqueCodes(rows) && AlwaysFillsEmptyOnly(a, rows)
  {
    hide MatchStates, CountryMatch, IsBlank;
    var rows := [HOLDER, Second(name), Third(name)];
    assert !FirstInCountry(rows, 2) by { assert rows[0].isoCode == rows[2].isoCode; }
    assert FirstInCountry(rows, 0);
    assert CountryStates(rows, "X") == rows by { AllInX(name); }
    forall pkg: Package | PackageCoded(With(a, pkg))
      ensures FillsEmptyOnly(With(a, pkg), rows)
    {
      var b := With(a, pkg);
      StoredCodeKept(b, rows, 0);
      assert IsBlank(b, name) by { SameNormalisers(a, pkg, name); }
      ThirdUnmatched(b, name);
      TablesAt(b, rows, rows[2]);
      StateAt(b, rows, rows[2]);
    }
  }

  lemma SameNormalisers(a: Atlas, pkg: Package, name: string)
    requires IsBlank(a, name)
    ensures IsBlank(With(a, pkg), name)
  {
  }

  lemma AllInX(name: string)
    ensures CountryStates([HOLDER, Second(name), Third(name)], "X") == [HOLDER, Second(name), Third(name)]
  {
    OneMoreState([], HOLDER, "X");
    OneMoreState([HOLDER], Second(name), "X");
    OneMoreState([HOLDER, Second(name)], Third(name), "X");
    assert [] + [HOLDER] == [HOLDER] && [HOLDER] + [Second(name)] == [HOLDER, Second(name)];
    assert [HOLDER, Second(name)] + [Third(name)] == [HOLDER, Second(name), Third(name)];
  }
}

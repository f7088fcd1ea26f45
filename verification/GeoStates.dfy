/** Matching the states of one country to package iso codes: existing codes first, then
    three unique-candidate passes, then the clear fuzzy winner. */
module GeoStates {
  import opened Outcomes
  import opened GeoData
  import opened EditDistance

  const FUZZY_STATE_MATCH_THRESHOLD := 0.75

  datatype Rule = Alias | Exact | Loose

  /** The state of the matching: codes by state id, the new codes among them, the codes in
      use, and the states given up on. */
  datatype Match = Match(iso: map<int, string>, back: map<int, string>, used: set<string>, unmatched: seq<GeoState>)

  const NoMatch := Match(map[], map[], {}, [])

  predicate Matches(a: Atlas, countryCode: string, rule: Rule, pkg: PkgState, dbName: string) {
    match rule
    case Alias => a.normalize(AliasOf(countryCode, pkg.isoCode)) == a.normalize(dbName)
    case Exact => a.normalize(pkg.name) == a.normalize(dbName)
    case Loose => a.loose(dbName) != "" && a.loose(pkg.name) == a.loose(dbName)
  }

  function Unused(pkgs: seq<PkgState>, used: set<string>): (r: seq<PkgState>)
    ensures forall p :: p in r ==> p in pkgs && p.isoCode !in used
  {
    if pkgs == [] then []
    else Unused(pkgs[..|pkgs| - 1], used) + if pkgs[|pkgs| - 1].isoCode in used then [] else [pkgs[|pkgs| - 1]]
  }

  function Matching(a: Atlas, countryCode: string, rule: Rule, pkgs: seq<PkgState>, dbName: string): (r: seq<PkgState>)
    ensures forall p :: p in r ==> p in pkgs
  {
    if pkgs == [] then []
    else
      var last := pkgs[|pkgs| - 1];
      Matching(a, countryCode, rule, pkgs[..|pkgs| - 1], dbName)
      + if Matches(a, countryCode, rule, last, dbName) then [last] else []
  }

  function Candidates(a: Atlas, countryCode: string, rule: Rule, used: set<string>, dbName: string): seq<PkgState> {
    Matching(a, countryCode, rule, Unused(a.statesOf(countryCode), used), dbName)
  }

  function Score(a: Atlas, pkg: PkgState, dbName: string): real {
    Similarity(a.loose(pkg.name), a.loose(dbName))
  }

  /** Package state i scores at least the threshold and strictly more than any other. */
  ghost predicate ClearWinner(a: Atlas, pkgs: seq<PkgState>, dbName: string, i: int) {
    && 0 <= i < |pkgs|
    && Score(a, pkgs[i], dbName) >= FUZZY_STATE_MATCH_THRESHOLD
    && forall j :: 0 <= j < |pkgs| && j != i ==> Score(a, pkgs[j], dbName) < Score(a, pkgs[i], dbName)
  }

  ghost function FuzzyPick(a: Atlas, countryCode: string, used: set<string>, dbName: string): (r: Option<PkgState>)
    ensures r.Some? ==> r.value in a.statesOf(countryCode) && r.value.isoCode !in used
  {
    var pkgs := Unused(a.statesOf(countryCode), used);
    if i :| ClearWinner(a, pkgs, dbName, i) then Some(pkgs[i]) else None
  }

  function Take(m: Match, id: int, iso: string): Match {
    m.(iso := m.iso[id := iso], back := m.back[id := iso], used := m.used + {iso})
  }

  function KeepStep(s: GeoState, m: Match): Match {
    if s.isoCode != "" && s.isoCode !in m.used then m.(iso := m.iso[s.id := s.isoCode], used := m.used + {s.isoCode})
    else m
  }

  function PassStep(a: Atlas, countryCode: string, rule: Rule, s: GeoState, m: Match): Match {
    if s.id in m.iso then m
    else
      var candidates := Candidates(a, countryCode, rule, m.used, s.name);
      if |candidates| == 1 then Take(m, s.id, candidates[0].isoCode) else m
  }

  ghost function FuzzyStep(a: Atlas, countryCode: string, s: GeoState, m: Match): Match {
    if s.id in m.iso then m
    else match FuzzyPick(a, countryCode, m.used, s.name)
      case Some(pkg) => Take(m, s.id, pkg.isoCode)
      case None => m.(unmatched := m.unmatched + [s])
  }

  /** The first n states through each pass. */
  function Keep(ss: seq<GeoState>, n: nat): Match
    requires n <= |ss|
  {
    if n == 0 then NoMatch else KeepStep(ss[n - 1], Keep(ss, n - 1))
  }

  /** The first pass on top of codes and lists that other countries have left. */
  function KeepFrom(ss: seq<GeoState>, m: Match, n: nat): Match
    requires n <= |ss|
  {
    if n == 0 then m else KeepStep(ss[n - 1], KeepFrom(ss, m, n - 1))
  }

  function Pass(a: Atlas, cc: string, rule: Rule, ss: seq<GeoState>, m: Match, n: nat): Match
    requires n <= |ss|
  {
    if n == 0 then m else PassStep(a, cc, rule, ss[n - 1], Pass(a, cc, rule, ss, m, n - 1))
  }

  ghost function Fuzzy(a: Atlas, cc: string, ss: seq<GeoState>, m: Match, n: nat): Match
    requires n <= |ss|
  {
    if n == 0 then m else FuzzyStep(a, cc, ss[n - 1], Fuzzy(a, cc, ss, m, n - 1))
  }

  function Passes(a: Atlas, cc: string, ss: seq<GeoState>, m: Match): Match {
    var m1 := Pass(a, cc, Alias, ss, m, |ss|);
    var m2 := Pass(a, cc, Exact, ss, m1, |ss|);
    Pass(a, cc, Loose, ss, m2, |ss|)
  }

  /** One country's passes on shared tables; only the codes in use start afresh. */
  ghost function MatchFrom(a: Atlas, cc: string, ss: seq<GeoState>, m: Match): Match {
    Fuzzy(a, cc, ss, Passes(a, cc, ss, KeepFrom(ss, m, |ss|)), |ss|)
  }

  ghost function CountryMatch(a: Atlas, cc: string, ss: seq<GeoState>): Match {
    Fuzzy(a, cc, ss, Passes(a, cc, ss, Keep(ss, |ss|)), |ss|)
  }

  // ---------------------------------------------------------------------------------
  // Soundness: codes are distinct, and new codes are recorded as such

  ghost predicate DistinctIds(ss: seq<GeoState>) {
    forall i, j :: 0 <= i < j < |ss| ==> ss[i].id != ss[j].id
  }

  /** Codes in use are exactly the assigned ones, each assigned to one state. */
  ghost predicate Sound(m: Match) {
    && (forall i :: i in m.iso ==> m.iso[i] in m.used)
    && (forall u :: u in m.used ==> exists i :: i in m.iso && m.iso[i] == u)
    && (forall i, j :: i in m.iso && j in m.iso && m.iso[i] == m.iso[j] ==> i == j)
    && (forall i :: i in m.back ==> i in m.iso && m.iso[i] == m.back[i])
  }

  lemma AddSound(m: Match, id: int, iso: string)
    requires Sound(m) && id !in m.iso && iso !in m.used
    ensures Sound(Take(m, id, iso))
    ensures Sound(m.(iso := m.iso[id := iso], used := m.used + {iso}))
  {
    assert id !in m.back;
    var codes := m.iso[id := iso];
    forall u | u in m.used + {iso}
      ensures exists i :: i in codes && codes[i] == u
    {
      if u in m.used {
        var i :| i in m.iso && m.iso[i] == u;
        assert codes[i] == u;
      } else {
        assert codes[id] == u;
      }
    }
  }

  /** m2 continues m1: old codes stay, every code added is recorded as new. */
  ghost predicate Continues(m1: Match, m2: Match) {
    && (forall i :: i in m1.iso ==> i in m2.iso && m2.iso[i] == m1.iso[i])
    && (forall i :: i in m2.iso ==> i in m1.iso || i in m2.back)
    && (forall i :: i in m1.back ==> i in m2.back && m2.back[i] == m1.back[i])
    && (forall i :: i in m2.back ==> i in m1.back || i !in m1.iso)
  }

  lemma ContinuesTrans(m1: Match, m2: Match, m3: Match)
    requires Continues(m1, m2) && Continues(m2, m3)
    ensures Continues(m1, m3)
  {
  }

  ghost predicate IdsOf(ss: seq<GeoState>, m: Match) {
    forall i :: i in m.iso ==> exists k :: 0 <= k < |ss| && ss[k].id == i
  }

  /** Every code that was added comes from the package. */
  ghost predicate FromPackage(a: Atlas, cc: string, m: Match) {
    forall i :: i in m.back ==> exists p :: p in a.statesOf(cc) && p.isoCode == m.back[i]
  }

  lemma {:induction false} KeepSound(ss: seq<GeoState>, n: nat)
    requires n <= |ss| && DistinctIds(ss)
    ensures Sound(Keep(ss, n)) && IdsOf(ss[..n], Keep(ss, n))
    ensures Keep(ss, n).back == map[] && Keep(ss, n).unmatched == []
  {
    if n > 0 {
      hide Sound;
      KeepSound(ss, n - 1);
      var m, s := Keep(ss, n - 1), ss[n - 1];
      assert s.id !in m.iso;
      if s.isoCode != "" && s.isoCode !in m.used {
        AddSound(m, s.id, s.isoCode);
      }
      forall i | i in Keep(ss, n).iso
        ensures exists k :: 0 <= k < n && ss[..n][k].id == i
      {
        if i == s.id {
          assert ss[..n][n - 1].id == i;
        } else {
          var k :| 0 <= k < n - 1 && ss[..n - 1][k].id == i;
          assert ss[..n][k].id == i;
        }
      }
    } else {
      assert Sound(NoMatch);
    }
  }

  /** A kept code is the state's own; a state that keeps none has no code, or an earlier
      state of the country already keeps the same one. */
  lemma {:induction false} KeepFacts(ss: seq<GeoState>, n: nat, k: nat)
    requires k < n <= |ss| && DistinctIds(ss)
    ensures var m := Keep(ss, n);
            if ss[k].id in m.iso then m.iso[ss[k].id] == ss[k].isoCode != ""
            else ss[k].isoCode == "" ||
                 exists j :: 0 <= j < k && ss[j].id in m.iso && m.iso[ss[j].id] == ss[k].isoCode
  {
    KeepSound(ss, n - 1);
    var m, s := Keep(ss, n - 1), ss[n - 1];
    if k == n - 1 {
      KeepLast(ss, n);
    } else {
      KeepFacts(ss, n - 1, k);
      assert s.id != ss[k].id;
      if ss[k].id !in m.iso && ss[k].isoCode != "" {
        var j :| 0 <= j < k && ss[j].id in m.iso && m.iso[ss[j].id] == ss[k].isoCode;
        assert ss[j].id != s.id;
        assert ss[j].id in Keep(ss, n).iso && Keep(ss, n).iso[ss[j].id] == ss[k].isoCode;
      }
    }
  }

  lemma KeepLast(ss: seq<GeoState>, n: nat)
    requires 0 < n <= |ss| && DistinctIds(ss)
    ensures var m, s := Keep(ss, n), ss[n - 1];
            if s.id in m.iso then m.iso[s.id] == s.isoCode != ""
            else s.isoCode == "" ||
                 exists j :: 0 <= j < n - 1 && ss[j].id in m.iso && m.iso[ss[j].id] == s.isoCode
  {
    hide DistinctIds;
    KeepSound(ss, n - 1);
    KeepNew(ss, n);
    var m, s := Keep(ss, n - 1), ss[n - 1];
    if s.isoCode != "" && s.isoCode in m.used {
      var i :| i in m.iso && m.iso[i] == s.isoCode;
      var j :| 0 <= j < n - 1 && ss[..n - 1][j].id == i;
      assert ss[j].id in m.iso && m.iso[ss[j].id] == s.isoCode;
    }
  }

  lemma KeepNew(ss: seq<GeoState>, n: nat)
    requires 0 < n <= |ss| && DistinctIds(ss)
    ensures ss[n - 1].id !in Keep(ss, n - 1).iso
  {
    KeepSound(ss, n - 1);
  }

  lemma CandidateUnused(a: Atlas, cc: string, rule: Rule, used: set<string>, dbName: string)
    ensures forall p :: p in Candidates(a, cc, rule, used, dbName) ==> p in a.statesOf(cc) && p.isoCode !in used
  {
  }

  lemma PassStepSound(a: Atlas, cc: string, rule: Rule, s: GeoState, m: Match)
    requires Sound(m) && FromPackage(a, cc, m)
    ensures var m' := PassStep(a, cc, rule, s, m);
            Sound(m') && Continues(m, m') && FromPackage(a, cc, m') && m'.unmatched == m.unmatched
  {
    hide Candidates, Sound;
    CandidateUnused(a, cc, rule, m.used, s.name);
    var candidates := Candidates(a, cc, rule, m.used, s.name);
    if s.id !in m.iso && |candidates| == 1 {
      assert candidates[0] in candidates;
      TakeStep(a, cc, m, s.id, candidates[0]);
    }
  }

  lemma TakeStep(a: Atlas, cc: string, m: Match, id: int, p: PkgState)
    requires Sound(m) && FromPackage(a, cc, m) && id !in m.iso
    requires p in a.statesOf(cc) && p.isoCode !in m.used
    ensures var m' := Take(m, id, p.isoCode); Sound(m') && Continues(m, m') && FromPackage(a, cc, m')
  {
    AddSound(m, id, p.isoCode);
    assert id !in m.back;
    var m' := Take(m, id, p.isoCode);
    forall i | i in m'.back
      ensures exists p :: p in a.statesOf(cc) && p.isoCode == m'.back[i]
    {
      if i != id {
        var q :| q in a.statesOf(cc) && q.isoCode == m.back[i];
        assert q.isoCode == m'.back[i];
      }
    }
  }

  lemma ContinuesRefl(m: Match)
    ensures Continues(m, m)
  {
  }

  lemma {:induction false} PassSound(a: Atlas, cc: string, rule: Rule, ss: seq<GeoState>, m: Match, n: nat)
    requires n <= |ss| && Sound(m) && FromPackage(a, cc, m)
    ensures var m' := Pass(a, cc, rule, ss, m, n);
            Sound(m') && Continues(m, m') && FromPackage(a, cc, m') && m'.unmatched == m.unmatched
  {
    hide Sound, FromPackage, Continues, PassStep;
    if n == 0 {
      ContinuesRefl(m);
    } else {
      PassSound(a, cc, rule, ss, m, n - 1);
      var m1 := Pass(a, cc, rule, ss, m, n - 1);
      PassStepSound(a, cc, rule, ss[n - 1], m1);
      ContinuesTrans(m, m1, Pass(a, cc, rule, ss, m, n));
    }
  }

  lemma PassesSound(a: Atlas, cc: string, ss: seq<GeoState>, m: Match)
    requires Sound(m) && FromPackage(a, cc, m)
    ensures var m' := Passes(a, cc, ss, m);
            Sound(m') && Continues(m, m') && FromPackage(a, cc, m') && m'.unmatched == m.unmatched
  {
    hide Sound, FromPackage, Continues, Pass;
    var m1 := Pass(a, cc, Alias, ss, m, |ss|);
    var m2 := Pass(a, cc, Exact, ss, m1, |ss|);
    PassSound(a, cc, Alias, ss, m, |ss|);
    PassSound(a, cc, Exact, ss, m1, |ss|);
    PassSound(a, cc, Loose, ss, m2, |ss|);
    ContinuesTrans(m, m1, m2);
    ContinuesTrans(m, m2, Passes(a, cc, ss, m));
  }

  /** The states given up on are those without a code. */
  ghost predicate GivenUp(ss: seq<GeoState>, m0: Match, m: Match) {
    && (forall u :: u in m.unmatched ==> u in m0.unmatched || u in ss)
    && (forall s :: s in ss ==> s.id in m.iso || s in m.unmatched)
    && (forall u :: u in m0.unmatched ==> u in m.unmatched)
  }

  lemma {:induction false} FuzzySound(a: Atlas, cc: string, ss: seq<GeoState>, m: Match, n: nat)
    requires n <= |ss| && Sound(m) && FromPackage(a, cc, m)
    ensures var m' := Fuzzy(a, cc, ss, m, n);
            Sound(m') && Continues(m, m') && FromPackage(a, cc, m') && GivenUp(ss[..n], m, m')
  {
    hide Sound, FromPackage, FuzzyPick;
    if n > 0 {
      FuzzySound(a, cc, ss, m, n - 1);
      var m1, s := Fuzzy(a, cc, ss, m, n - 1), ss[n - 1];
      assert ss[..n] == ss[..n - 1] + [s];
      FuzzyStepSound(a, cc, s, m1);
      FuzzyStepGivenUp(a, cc, ss[..n - 1], m, s, m1);
      ContinuesTrans(m, m1, Fuzzy(a, cc, ss, m, n));
    }
  }

  lemma FuzzyStepSound(a: Atlas, cc: string, s: GeoState, m: Match)
    requires Sound(m) && FromPackage(a, cc, m)
    ensures var m' := FuzzyStep(a, cc, s, m); Sound(m') && Continues(m, m') && FromPackage(a, cc, m')
  {
    hide Sound;
    if s.id !in m.iso {
      var pick := FuzzyPick(a, cc, m.used, s.name);
      if pick.Some? {
        TakeStep(a, cc, m, s.id, pick.value);
      } else {
        SameSound(m, m.(unmatched := m.unmatched + [s]));
      }
    }
  }

  lemma SameSound(m: Match, m': Match)
    requires Sound(m) && m'.iso == m.iso && m'.back == m.back && m'.used == m.used
    ensures Sound(m')
  {
  }

  lemma FuzzyStepGivenUp(a: Atlas, cc: string, ss: seq<GeoState>, m0: Match, s: GeoState, m: Match)
    requires GivenUp(ss, m0, m)
    ensures GivenUp(ss + [s], m0, FuzzyStep(a, cc, s, m))
  {
  }

  /** A state that was given up on never has a code. */
  lemma {:induction false} UnmatchedHasNoCode(a: Atlas, cc: string, ss: seq<GeoState>, m: Match, n: nat)
    requires n <= |ss| && DistinctIds(ss) && m.unmatched == []
    ensures forall u :: u in Fuzzy(a, cc, ss, m, n).unmatched ==> u in ss[..n] && u.id !in Fuzzy(a, cc, ss, m, n).iso
  {
    if n > 0 {
      hide FuzzyPick;
      UnmatchedHasNoCode(a, cc, ss, m, n - 1);
      var m1, s := Fuzzy(a, cc, ss, m, n - 1), ss[n - 1];
      assert ss[..n] == ss[..n - 1] + [s];
      forall u | u in m1.unmatched
        ensures u.id != s.id
      {
        var k :| 0 <= k < n - 1 && ss[..n - 1][k] == u;
        assert ss[k].id != ss[n - 1].id;
      }
    }
  }

  /** One country: distinct codes, and every state is exactly one of kept (its own code),
      backfilled (a package code not otherwise in use) or unmatched. */
  ghost predicate Partitioned(a: Atlas, cc: string, ss: seq<GeoState>, m: Match) {
    && Sound(m) && FromPackage(a, cc, m) && IdsOf(ss, m)
    && (forall u :: u in m.unmatched ==> u in ss)
    && (forall s :: s in ss ==> (s in m.unmatched <==> s.id !in m.iso))
    && (forall s :: s in ss && s.id in m.iso && s.id !in m.back ==> m.iso[s.id] == s.isoCode != "")
  }

  lemma CountryPartitioned(a: Atlas, cc: string, ss: seq<GeoState>)
    requires DistinctIds(ss)
    ensures Partitioned(a, cc, ss, CountryMatch(a, cc, ss))
  {
    hide Sound, FromPackage, Continues, Pass, Passes, Keep, Fuzzy, IdsOf, GivenUp;
    var k := Keep(ss, |ss|);
    assert ss[..|ss|] == ss;
    KeepSound(ss, |ss|);
    assert FromPackage(a, cc, k) by { NothingNew(a, cc, k); }
    PassesSound(a, cc, ss, k);
    var p := Passes(a, cc, ss, k);
    FuzzySound(a, cc, ss, p, |ss|);
    var m := CountryMatch(a, cc, ss);
    ContinuesTrans(k, p, m);
    UnmatchedHasNoCode(a, cc, ss, p, |ss|);
    assert IdsOf(ss, m) by { CountryIds(a, cc, ss, k); }
    assert forall s :: s in ss ==> s.id in m.iso || s in m.unmatched by { GivenUpMeans(ss, p, m); }
    forall s | s in ss && s.id in m.iso && s.id !in m.back
      ensures m.iso[s.id] == s.isoCode != ""
    {
      var i :| 0 <= i < |ss| && ss[i] == s;
      KeepFacts(ss, |ss|, i);
      ContinuesAt(k, m, s.id);
    }
  }

  lemma NothingNew(a: Atlas, cc: string, m: Match)
    requires m.back == map[]
    ensures FromPackage(a, cc, m)
  {
  }

  lemma GivenUpMeans(ss: seq<GeoState>, m0: Match, m: Match)
    requires GivenUp(ss, m0, m)
    ensures forall s :: s in ss ==> s.id in m.iso || s in m.unmatched
  {
  }

  lemma ContinuesAt(m1: Match, m2: Match, i: int)
    requires Continues(m1, m2) && i in m2.iso && i !in m2.back
    ensures i in m1.iso && m2.iso[i] == m1.iso[i]
  {
  }

  lemma IdAdded(ss: seq<GeoState>, m: Match, m': Match, k: nat)
    requires IdsOf(ss, m) && k < |ss| && forall i :: i in m'.iso ==> i in m.iso || i == ss[k].id
    ensures IdsOf(ss, m')
  {
  }

  lemma StepIds(a: Atlas, cc: string, rule: Rule, s: GeoState, m: Match)
    ensures forall i :: i in PassStep(a, cc, rule, s, m).iso ==> i in m.iso || i == s.id
    ensures forall i :: i in FuzzyStep(a, cc, s, m).iso ==> i in m.iso || i == s.id
  {
    hide Candidates, FuzzyPick;
  }

  lemma {:induction false} PassIds(a: Atlas, cc: string, rule: Rule, ss: seq<GeoState>, m: Match, n: nat)
    requires n <= |ss| && IdsOf(ss, m)
    ensures IdsOf(ss, Pass(a, cc, rule, ss, m, n))
  {
    hide IdsOf, PassStep;
    if n > 0 {
      PassIds(a, cc, rule, ss, m, n - 1);
      StepIds(a, cc, rule, ss[n - 1], Pass(a, cc, rule, ss, m, n - 1));
      IdAdded(ss, Pass(a, cc, rule, ss, m, n - 1), Pass(a, cc, rule, ss, m, n), n - 1);
    }
  }

  lemma {:induction false} FuzzyIds(a: Atlas, cc: string, ss: seq<GeoState>, m: Match, n: nat)
    requires n <= |ss| && IdsOf(ss, m)
    ensures IdsOf(ss, Fuzzy(a, cc, ss, m, n))
  {
    hide IdsOf, FuzzyStep;
    if n > 0 {
      FuzzyIds(a, cc, ss, m, n - 1);
      StepIds(a, cc, Alias, ss[n - 1], Fuzzy(a, cc, ss, m, n - 1));
      IdAdded(ss, Fuzzy(a, cc, ss, m, n - 1), Fuzzy(a, cc, ss, m, n), n - 1);
    }
  }

  lemma CountryIds(a: Atlas, cc: string, ss: seq<GeoState>, k: Match)
    requires IdsOf(ss, k)
    ensures IdsOf(ss, Fuzzy(a, cc, ss, Passes(a, cc, ss, k), |ss|))
  {
    hide IdsOf, Pass, Fuzzy;
    var m1 := Pass(a, cc, Alias, ss, k, |ss|);
    var m2 := Pass(a, cc, Exact, ss, m1, |ss|);
    PassIds(a, cc, Alias, ss, k, |ss|);
    PassIds(a, cc, Exact, ss, m1, |ss|);
    PassIds(a, cc, Loose, ss, m2, |ss|);
    FuzzyIds(a, cc, ss, Passes(a, cc, ss, k), |ss|);
  }
}

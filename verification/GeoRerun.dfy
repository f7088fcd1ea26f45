/** Running the state matching again after its new codes were stored. The second run keeps
    every code of the first, and finds nothing new exactly when no unmatched state has a
    unique candidate or a clear fuzzy winner among the codes the first run left unused. */
module GeoRerun {
  import opened Outcomes
  import opened GeoData
  import opened GeoStates

  function Refill(s: GeoState, back: map<int, string>): GeoState {
    if s.id in back then s.(isoCode := back[s.id]) else s
  }

  function RefillAll(ss: seq<GeoState>, back: map<int, string>): (r: seq<GeoState>)
    ensures |r| == |ss| && forall i :: 0 <= i < |ss| ==> r[i] == Refill(ss[i], back)
  {
    seq(|ss|, i requires 0 <= i < |ss| => Refill(ss[i], back))
  }

  lemma RefillDistinct(states: seq<GeoState>, back: map<int, string>)
    requires DistinctIds(states)
    ensures DistinctIds(RefillAll(states, back))
  {
  }

  /** The reference package gives every state a code. */
  ghost predicate PackageCoded(a: Atlas) {
    forall cc, p :: p in a.statesOf(cc) ==> p.isoCode != ""
  }

  /** Nothing the matching does can give this state a code while these codes are in use. */
  ghost predicate Stuck(a: Atlas, cc: string, used: set<string>, dbName: string) {
    && |Candidates(a, cc, Alias, used, dbName)| != 1
    && |Candidates(a, cc, Exact, used, dbName)| != 1
    && |Candidates(a, cc, Loose, used, dbName)| != 1
    && FuzzyPick(a, cc, used, dbName).None?
  }

  /** The rerun's first pass over n states restores exactly the codes of those states. */
  ghost predicate Restored(ss: seq<GeoState>, n: nat, m: Match, k: Match)
    requires n <= |ss|
  {
    && k.back == map[] && k.unmatched == []
    && (forall i :: i in k.iso ==> i in m.iso && k.iso[i] == m.iso[i])
    && (forall j :: 0 <= j < n && ss[j].id in m.iso ==> ss[j].id in k.iso)
    && (forall u :: u in k.used ==> exists j :: 0 <= j < n && ss[j].id in m.iso && m.iso[ss[j].id] == u)
    && (forall j :: 0 <= j < n && ss[j].id in m.iso ==> m.iso[ss[j].id] in k.used)
  }

  lemma RestoreStep(a: Atlas, cc: string, ss: seq<GeoState>, n: nat, k: Match)
    requires 0 < n <= |ss| && DistinctIds(ss) && PackageCoded(a)
    requires Restored(ss, n - 1, CountryMatch(a, cc, ss), k)
    ensures var m := CountryMatch(a, cc, ss); Restored(ss, n, m, KeepStep(Refill(ss[n - 1], m.back), k))
  {
    hide CountryMatch, IdsOf;
    CountryPartitioned(a, cc, ss);
    var m, s := CountryMatch(a, cc, ss), ss[n - 1];
    assert s in ss;
    if s.id in m.iso {
      CodeOfRefilled(a, cc, m, s);
      forall j | 0 <= j < n - 1 && ss[j].id in m.iso
        ensures m.iso[ss[j].id] != m.iso[s.id]
      {
        assert ss[j].id != ss[n - 1].id;
      }
      assert m.iso[s.id] !in k.used;
      RestoreAdd(ss, n, m, k);
    } else {
      UncodedRefilled(a, cc, ss, n, k);
    }
  }

  lemma CodeOfRefilled(a: Atlas, cc: string, m: Match, s: GeoState)
    requires PackageCoded(a) && Sound(m) && FromPackage(a, cc, m) && s.id in m.iso
    requires s.id !in m.back ==> m.iso[s.id] == s.isoCode != ""
    ensures Refill(s, m.back).isoCode == m.iso[s.id] != ""
  {
  }

  lemma RestoreAdd(ss: seq<GeoState>, n: nat, m: Match, k: Match)
    requires 0 < n <= |ss| && Restored(ss, n - 1, m, k) && ss[n - 1].id in m.iso
    ensures var id := ss[n - 1].id;
            Restored(ss, n, m, k.(iso := k.iso[id := m.iso[id]], used := k.used + {m.iso[id]}))
  {
  }

  lemma UncodedRefilled(a: Atlas, cc: string, ss: seq<GeoState>, n: nat, k: Match)
    requires 0 < n <= |ss| && DistinctIds(ss) && ss[n - 1].id !in CountryMatch(a, cc, ss).iso
    requires Restored(ss, n - 1, CountryMatch(a, cc, ss), k)
    ensures var m := CountryMatch(a, cc, ss); Restored(ss, n, m, KeepStep(Refill(ss[n - 1], m.back), k))
  {
    hide IdsOf, Keep, Passes, Fuzzy;
    var m, s := CountryMatch(a, cc, ss), ss[n - 1];
    CountryPartitioned(a, cc, ss);
    KeptStays(a, cc, ss);
    assert s.id !in m.back;
    KeepFacts(ss, |ss|, n - 1);
    if s.isoCode != "" {
      var kept := Keep(ss, |ss|);
      var j :| 0 <= j < n - 1 && ss[j].id in kept.iso && kept.iso[ss[j].id] == s.isoCode;
      assert ss[j].id in m.iso && m.iso[ss[j].id] == s.isoCode;
    }
  }

  /** The first pass's codes survive to the end. */
  lemma KeptStays(a: Atlas, cc: string, ss: seq<GeoState>)
    requires DistinctIds(ss)
    ensures Continues(Keep(ss, |ss|), CountryMatch(a, cc, ss))
  {
    hide Continues, Sound, FromPackage, Keep, Pass, Passes, Fuzzy, GivenUp, IdsOf;
    var k := Keep(ss, |ss|);
    KeepSound(ss, |ss|);
    NothingNew(a, cc, k);
    PassesSound(a, cc, ss, k);
    FuzzySound(a, cc, ss, Passes(a, cc, ss, k), |ss|);
    ContinuesTrans(k, Passes(a, cc, ss, k), CountryMatch(a, cc, ss));
  }

  lemma {:induction false} RestoreAll(a: Atlas, cc: string, ss: seq<GeoState>, n: nat)
    requires n <= |ss| && DistinctIds(ss) && PackageCoded(a)
    ensures var m := CountryMatch(a, cc, ss); Restored(ss, n, m, Keep(RefillAll(ss, m.back), n))
  {
    hide CountryMatch, Restored, KeepStep;
    var m := CountryMatch(a, cc, ss);
    if n == 0 {
      RestoreNothing(ss, m);
    } else {
      RestoreAll(a, cc, ss, n - 1);
      RestoreStep(a, cc, ss, n, Keep(RefillAll(ss, m.back), n - 1));
    }
  }

  lemma RestoreNothing(ss: seq<GeoState>, m: Match)
    ensures Restored(ss, 0, m, NoMatch)
  {
  }

  /** The rerun starts its passes with the codes the first run ended with. */
  lemma RerunStart(a: Atlas, cc: string, ss: seq<GeoState>)
    requires DistinctIds(ss) && PackageCoded(a)
    ensures var m := CountryMatch(a, cc, ss);
            var k := Keep(RefillAll(ss, m.back), |ss|);
            k.iso == m.iso && k.used == m.used && k.back == map[] && k.unmatched == []
  {
    hide CountryMatch, Keep;
    var m := CountryMatch(a, cc, ss);
    CountryPartitioned(a, cc, ss);
    RestoreAll(a, cc, ss, |ss|);
    AllRestored(ss, m, Keep(RefillAll(ss, m.back), |ss|));
  }

  lemma AllRestored(ss: seq<GeoState>, m: Match, k: Match)
    requires Sound(m) && IdsOf(ss, m) && Restored(ss, |ss|, m, k)
    ensures k.iso == m.iso && k.used == m.used
  {
    forall i | i in m.iso
      ensures i in k.iso && m.iso[i] in k.used
    {
      var j :| 0 <= j < |ss| && ss[j].id == i;
    }
    assert k.used == m.used by { SameUsed(ss, m, k); }
    assert forall i :: i in k.iso <==> i in m.iso;
    assert forall i :: i in k.iso ==> k.iso[i] == m.iso[i];
  }

  lemma SameUsed(ss: seq<GeoState>, m: Match, k: Match)
    requires Sound(m) && Restored(ss, |ss|, m, k)
    requires forall i :: i in m.iso ==> m.iso[i] in k.used
    ensures k.used == m.used
  {
    assert forall u :: u in m.used ==> u in k.used;
    assert forall u :: u in k.used ==> u in m.used;
  }

  // ---------------------------------------------------------------------------------
  // When the second run adds nothing

  /** Every state of the country without a code is stuck. */
  ghost predicate AllStuck(a: Atlas, cc: string, ss: seq<GeoState>, m: Match, n: nat)
    requires n <= |ss|
  {
    forall j :: 0 <= j < n && ss[j].id !in m.iso ==> Stuck(a, cc, m.used, ss[j].name)
  }

  ghost predicate NoUnique(a: Atlas, cc: string, rule: Rule, ss: seq<GeoState>, m: Match, n: nat)
    requires n <= |ss|
  {
    forall j :: 0 <= j < n && ss[j].id !in m.iso ==> |Candidates(a, cc, rule, m.used, ss[j].name)| != 1
  }

  ghost predicate NoWinner(a: Atlas, cc: string, ss: seq<GeoState>, m: Match, n: nat)
    requires n <= |ss|
  {
    forall j :: 0 <= j < n && ss[j].id !in m.iso ==> FuzzyPick(a, cc, m.used, ss[j].name).None?
  }

  /** A pass adds no code exactly when no uncoded state has a unique candidate. */
  lemma {:induction false} PassIdle(a: Atlas, cc: string, rule: Rule, ss: seq<GeoState>, m: Match, n: nat)
    requires n <= |ss| && Sound(m)
    ensures |Pass(a, cc, rule, ss, m, n).back| >= |m.back|
    ensures |Pass(a, cc, rule, ss, m, n).back| == |m.back| <==> NoUnique(a, cc, rule, ss, m, n)
    ensures NoUnique(a, cc, rule, ss, m, n) ==> Pass(a, cc, rule, ss, m, n) == m
  {
    hide Candidates, PassStep, NoUnique;
    if n == 0 {
      NobodyLeft(a, cc, rule, ss, m);
    } else {
      NextUnique(a, cc, rule, ss, m, n);
      PassIdle(a, cc, rule, ss, m, n - 1);
      PassSize(a, cc, rule, ss, m, n - 1);
      PassIdleStep(a, cc, rule, ss[n - 1], m, Pass(a, cc, rule, ss, m, n - 1), NoUnique(a, cc, rule, ss, m, n - 1));
    }
  }

  lemma NobodyLeft(a: Atlas, cc: string, rule: Rule, ss: seq<GeoState>, m: Match)
    ensures NoUnique(a, cc, rule, ss, m, 0) && NoWinner(a, cc, ss, m, 0)
  {
  }

  lemma NextUnique(a: Atlas, cc: string, rule: Rule, ss: seq<GeoState>, m: Match, n: nat)
    requires 0 < n <= |ss|
    ensures NoUnique(a, cc, rule, ss, m, n) <==>
            NoUnique(a, cc, rule, ss, m, n - 1) && (ss[n - 1].id !in m.iso ==> |Candidates(a, cc, rule, m.used, ss[n - 1].name)| != 1)
  {
    hide Candidates;
  }

  lemma NextWinner(a: Atlas, cc: string, ss: seq<GeoState>, m: Match, n: nat)
    requires 0 < n <= |ss|
    ensures NoWinner(a, cc, ss, m, n) <==>
            NoWinner(a, cc, ss, m, n - 1) && (ss[n - 1].id !in m.iso ==> FuzzyPick(a, cc, m.used, ss[n - 1].name).None?)
  {
    hide FuzzyPick;
  }

  lemma PassIdleStep(a: Atlas, cc: string, rule: Rule, s: GeoState, m: Match, m1: Match, quiet: bool)
    requires |m1.back| >= |m.back| && (|m1.back| == |m.back| <==> quiet) && (quiet ==> m1 == m)
    requires forall i :: i in m1.back ==> i in m1.iso
    ensures var m2 := PassStep(a, cc, rule, s, m1);
            var still := quiet && (s.id !in m.iso ==> |Candidates(a, cc, rule, m.used, s.name)| != 1);
            |m2.back| >= |m.back| && (|m2.back| == |m.back| <==> still) && (still ==> m2 == m)
  {
    hide Candidates;
    PassBack(a, cc, rule, s, m1);
  }

  /** Every new code is for a state that had none, so the number of new codes only grows. */
  lemma PassBack(a: Atlas, cc: string, rule: Rule, s: GeoState, m: Match)
    ensures (forall i :: i in m.back ==> i in m.iso) ==>
              |PassStep(a, cc, rule, s, m).back| ==
              |m.back| + if s.id !in m.iso && |Candidates(a, cc, rule, m.used, s.name)| == 1 then 1 else 0
  {
    hide Candidates;
  }

  lemma {:induction false} PassSize(a: Atlas, cc: string, rule: Rule, ss: seq<GeoState>, m: Match, n: nat)
    requires n <= |ss| && Sound(m)
    ensures forall i :: i in Pass(a, cc, rule, ss, m, n).back ==> i in Pass(a, cc, rule, ss, m, n).iso
  {
    if n > 0 {
      hide Candidates;
      PassSize(a, cc, rule, ss, m, n - 1);
    }
  }

  /** The fuzzy loop without a clear winner only lists the uncoded states. */
  lemma {:induction false} FuzzyIdle(a: Atlas, cc: string, ss: seq<GeoState>, m: Match, n: nat)
    requires n <= |ss| && Sound(m)
    ensures BackCoded(Fuzzy(a, cc, ss, m, n))
    ensures |Fuzzy(a, cc, ss, m, n).back| >= |m.back|
    ensures |Fuzzy(a, cc, ss, m, n).back| == |m.back| <==> NoWinner(a, cc, ss, m, n)
    ensures NoWinner(a, cc, ss, m, n) ==> SameCodes(m, Fuzzy(a, cc, ss, m, n))
  {
    hide FuzzyPick, FuzzyStep, NoWinner, BackCoded, SameCodes, Sound;
    if n == 0 {
      SoundCoded(m);
      NobodyLeft(a, cc, Alias, ss, m);
    } else {
      NextWinner(a, cc, ss, m, n);
      FuzzyIdle(a, cc, ss, m, n - 1);
      FuzzyIdleStep(a, cc, ss[n - 1], m, Fuzzy(a, cc, ss, m, n - 1), NoWinner(a, cc, ss, m, n - 1));
    }
  }

  predicate SameCodes(m: Match, f: Match) {
    f.iso == m.iso && f.used == m.used && f.back == m.back
  }

  /** Every new code is recorded among the codes. */
  ghost predicate BackCoded(m: Match) {
    forall i :: i in m.back ==> i in m.iso
  }

  lemma SoundCoded(m: Match)
    requires Sound(m)
    ensures BackCoded(m) && SameCodes(m, m)
  {
  }

  lemma FuzzyIdleStep(a: Atlas, cc: string, s: GeoState, m: Match, m1: Match, quiet: bool)
    requires |m1.back| >= |m.back| && (|m1.back| == |m.back| <==> quiet) && (quiet ==> SameCodes(m, m1))
    requires BackCoded(m1)
    ensures var m2 := FuzzyStep(a, cc, s, m1);
            var still := quiet && (s.id !in m.iso ==> FuzzyPick(a, cc, m.used, s.name).None?);
            && |m2.back| >= |m.back| && (|m2.back| == |m.back| <==> still) && (still ==> SameCodes(m, m2))
            && BackCoded(m2)
  {
    hide FuzzyPick;
    FuzzyBack(a, cc, s, m1);
  }

  lemma FuzzyBack(a: Atlas, cc: string, s: GeoState, m: Match)
    ensures (forall i :: i in m.back ==> i in m.iso) ==>
              |FuzzyStep(a, cc, s, m).back| ==
              |m.back| + if s.id !in m.iso && FuzzyPick(a, cc, m.used, s.name).Some? then 1 else 0
  {
    hide FuzzyPick;
  }

  /** From a sound start without new codes, the passes and the fuzzy loop add none exactly
      when every uncoded state is stuck; and then they leave all codes alone. */
  lemma IdleIffStuck(a: Atlas, cc: string, ss: seq<GeoState>, k: Match)
    requires Sound(k) && k.back == map[]
    ensures var f := Fuzzy(a, cc, ss, Passes(a, cc, ss, k), |ss|);
            && (f.back == map[] <==> AllStuck(a, cc, ss, k, |ss|))
            && (f.back == map[] ==> f.iso == k.iso && f.used == k.used)
  {
    hide Candidates, FuzzyPick, Sound, Pass, Fuzzy;
    var m1 := Pass(a, cc, Alias, ss, k, |ss|);
    var m2 := Pass(a, cc, Exact, ss, m1, |ss|);
    var m3 := Pass(a, cc, Loose, ss, m2, |ss|);
    SoundPasses(a, cc, ss, k);
    PassIdle(a, cc, Alias, ss, k, |ss|);
    PassIdle(a, cc, Exact, ss, m1, |ss|);
    PassIdle(a, cc, Loose, ss, m2, |ss|);
    FuzzyIdle(a, cc, ss, m3, |ss|);
    StuckParts(a, cc, ss, k);
    assert forall m: Match :: m.back == map[] <==> |m.back| == 0;
  }

  lemma StuckParts(a: Atlas, cc: string, ss: seq<GeoState>, k: Match)
    ensures AllStuck(a, cc, ss, k, |ss|) <==>
              NoUnique(a, cc, Alias, ss, k, |ss|) && NoUnique(a, cc, Exact, ss, k, |ss|)
              && NoUnique(a, cc, Loose, ss, k, |ss|) && NoWinner(a, cc, ss, k, |ss|)
  {
    hide Candidates, FuzzyPick;
  }

  lemma SoundPasses(a: Atlas, cc: string, ss: seq<GeoState>, k: Match)
    requires Sound(k) && k.back == map[]
    ensures var m1 := Pass(a, cc, Alias, ss, k, |ss|);
            var m2 := Pass(a, cc, Exact, ss, m1, |ss|);
            Sound(m1) && Sound(m2) && Sound(Pass(a, cc, Loose, ss, m2, |ss|))
  {
    hide Sound, Pass, FromPackage, Continues;
    NothingNew(a, cc, k);
    var m1 := Pass(a, cc, Alias, ss, k, |ss|);
    var m2 := Pass(a, cc, Exact, ss, m1, |ss|);
    PassSound(a, cc, Alias, ss, k, |ss|);
    PassSound(a, cc, Exact, ss, m1, |ss|);
    PassSound(a, cc, Loose, ss, m2, |ss|);
  }

  /** One country: storing the new codes and matching again adds no code exactly when every
      unmatched state of the first run is stuck; the codes are then the same. */
  lemma CountryRerun(a: Atlas, cc: string, ss: seq<GeoState>)
    requires DistinctIds(ss) && PackageCoded(a)
    ensures var m := CountryMatch(a, cc, ss);
            var again := CountryMatch(a, cc, RefillAll(ss, m.back));
            && (again.back == map[] <==> forall u :: u in m.unmatched ==> Stuck(a, cc, m.used, u.name))
            && (again.back == map[] ==> again.iso == m.iso)
  {
    hide Candidates, FuzzyPick, Stuck, Keep, Passes, Fuzzy, Sound, FromPackage, IdsOf;
    var m := CountryMatch(a, cc, ss);
    var ss' := RefillAll(ss, m.back);
    var k := Keep(ss', |ss'|);
    CountryPartitioned(a, cc, ss);
    RerunStart(a, cc, ss);
    assert DistinctIds(ss');
    KeepSound(ss', |ss'|);
    IdleIffStuck(a, cc, ss', k);
    if AllStuck(a, cc, ss', k, |ss'|) {
      forall u | u in m.unmatched
        ensures Stuck(a, cc, m.used, u.name)
      {
        var j :| 0 <= j < |ss| && ss[j] == u;
        assert ss'[j].id == u.id && ss'[j].name == u.name;
      }
    }
    if forall u :: u in m.unmatched ==> Stuck(a, cc, m.used, u.name) {
      forall j | 0 <= j < |ss'| && ss'[j].id !in k.iso
        ensures Stuck(a, cc, k.used, ss'[j].name)
      {
        assert ss[j] in ss && ss[j] in m.unmatched;
      }
    }
  }
}

/** The state tables of all countries together, and the rerun of the matching over all states. */
module GeoTables {
  import opened GeoData
  import opened GeoStates
  import opened GeoRerun
  import GeoMatching

  function CountryOf(s: GeoState): string {
    s.countryCode
  }

  function CountryStates(states: seq<GeoState>, cc: string): (r: seq<GeoState>)
    ensures forall s :: s in r <==> s in states && s.countryCode == cc
  {
    Members(states, CountryOf, cc)
  }

  /** Codes by state id, the new codes among them, and the states left without one. */
  datatype Tables = Tables(iso: map<int, string>, back: map<int, string>, unmatched: seq<GeoState>)

  const NoTables := Tables(map[], map[], [])

  function Merge(t: Tables, m: Match): Tables {
    Tables(t.iso + m.iso, t.back + m.back, t.unmatched + m.unmatched)
  }

  /** The matching of one country's states. */
  ghost function Matched(a: Atlas, states: seq<GeoState>, cc: string): Match {
    CountryMatch(a, cc, CountryStates(states, cc))
  }

  ghost function MatchUpTo(a: Atlas, states: seq<GeoState>, ccs: seq<string>, n: nat): Tables
    requires n <= |ccs|
  {
    if n == 0 then NoTables else Merge(MatchUpTo(a, states, ccs, n - 1), Matched(a, states, ccs[n - 1]))
  }

  ghost function MatchStates(a: Atlas, states: seq<GeoState>): Tables {
    var ccs := FirstSeen(states, CountryOf);
    MatchUpTo(a, states, ccs, |ccs|)
  }

  /** The start of a country's matching on the tables so far. */
  function Open(t: Tables): Match {
    Match(t.iso, t.back, {}, t.unmatched)
  }

  function Close(m: Match): Tables {
    Tables(m.iso, m.back, m.unmatched)
  }

  /** The script's own loop: all countries write to the same tables. */
  ghost function SharedUpTo(a: Atlas, states: seq<GeoState>, ccs: seq<string>, n: nat): Tables
    requires n <= |ccs|
  {
    if n == 0 then NoTables
    else Close(MatchFrom(a, ccs[n - 1], CountryStates(states, ccs[n - 1]), Open(SharedUpTo(a, states, ccs, n - 1))))
  }

  ghost function SharedTables(a: Atlas, states: seq<GeoState>): Tables {
    var ccs := FirstSeen(states, CountryOf);
    SharedUpTo(a, states, ccs, |ccs|)
  }

  method MatchAllCountries(a: Atlas, states: seq<GeoState>) returns (t: Tables)
    ensures t == SharedTables(a, states)
  {
    hide MatchFrom, Members, FirstSeen, Grouped, Open, Close;
    var ccs, groups := GroupBy(states, CountryOf);
    GroupFacts(states, CountryOf, ccs, groups);
    t := NoTables;
    for n := 0 to |ccs|
      invariant t == SharedUpTo(a, states, ccs, n)
    {
      assert ccs[n] in groups && groups[ccs[n]] == CountryStates(states, ccs[n]);
      var m := GeoMatching.MatchCountry(a, ccs[n], groups[ccs[n]], Open(t));
      t := Close(m);
    }
  }

  // ---------------------------------------------------------------------------------
  // Every state finds in the merged tables what its own country's matching found

  ghost predicate SameAt(t: Tables, m: Match, id: int) {
    && (id in t.iso <==> id in m.iso) && (id in t.iso ==> t.iso[id] == m.iso[id])
    && (id in t.back <==> id in m.back) && (id in t.back ==> t.back[id] == m.back[id])
  }

  lemma SameId(ss: seq<GeoState>, s: GeoState, t: GeoState)
    requires DistinctIds(ss) && s in ss && t in ss && s.id == t.id
    ensures s == t
  {
  }

  lemma {:induction false} MembersDistinct(states: seq<GeoState>, cc: string)
    requires DistinctIds(states)
    ensures DistinctIds(CountryStates(states, cc))
  {
    if states != [] {
      var rest, last := states[..|states| - 1], states[|states| - 1];
      assert states == rest + [last];
      MembersDistinct(rest, cc);
      forall s | s in CountryStates(rest, cc)
        ensures s.id != last.id
      {
        var i :| 0 <= i < |rest| && rest[i] == s;
        assert states[i].id != states[|rest|].id;
      }
      assert CountryStates(states, cc) == CountryStates(rest, cc) + if last.countryCode == cc then [last] else [];
    }
  }

  lemma MatchedFacts(a: Atlas, states: seq<GeoState>, cc: string)
    requires DistinctIds(states)
    ensures Partitioned(a, cc, CountryStates(states, cc), Matched(a, states, cc))
    ensures forall s :: s in states && s.countryCode != cc ==>
              s.id !in Matched(a, states, cc).iso && s.id !in Matched(a, states, cc).back
  {
    hide CountryMatch, FromPackage;
    var ss, m := CountryStates(states, cc), Matched(a, states, cc);
    MembersDistinct(states, cc);
    CountryPartitioned(a, cc, ss);
    forall s | s in states && s.id in m.iso
      ensures s.countryCode == cc
    {
      var k :| 0 <= k < |ss| && ss[k].id == s.id;
      SameId(states, s, ss[k]);
    }
  }

  lemma {:induction false} TablesUpTo(a: Atlas, states: seq<GeoState>, ccs: seq<string>, n: nat, s: GeoState)
    requires n <= |ccs| && DistinctIds(states) && s in states
    requires forall i, j :: 0 <= i < j < |ccs| ==> ccs[i] != ccs[j]
    ensures var t := MatchUpTo(a, states, ccs, n);
            if s.countryCode in ccs[..n] then SameAt(t, Matched(a, states, s.countryCode), s.id)
            else s.id !in t.iso && s.id !in t.back
  {
    hide Matched, Partitioned, DistinctIds, SameAt, Merge;
    if n > 0 {
      TablesUpTo(a, states, ccs, n - 1, s);
      assert ccs[..n] == ccs[..n - 1] + [ccs[n - 1]];
      MatchedFacts(a, states, ccs[n - 1]);
      var t, m := MatchUpTo(a, states, ccs, n - 1), Matched(a, states, ccs[n - 1]);
      if s.countryCode == ccs[n - 1] {
        assert s.countryCode !in ccs[..n - 1];
        MergeNew(t, m, s.id);
      } else {
        MergeOld(t, m, Matched(a, states, s.countryCode), s.id);
      }
    }
  }

  lemma MergeNew(t: Tables, m: Match, id: int)
    requires id !in t.iso && id !in t.back
    ensures SameAt(Merge(t, m), m, id)
  {
  }

  lemma MergeOld(t: Tables, m: Match, own: Match, id: int)
    requires id !in m.iso && id !in m.back
    ensures SameAt(t, own, id) ==> SameAt(Merge(t, m), own, id)
    ensures id !in t.iso && id !in t.back ==> id !in Merge(t, m).iso && id !in Merge(t, m).back
  {
  }

  lemma TablesAt(a: Atlas, states: seq<GeoState>, s: GeoState)
    requires DistinctIds(states) && s in states
    ensures SameAt(MatchStates(a, states), Matched(a, states, s.countryCode), s.id)
  {
    hide Matched, DistinctIds, MatchUpTo, SameAt;
    var ccs := FirstSeen(states, CountryOf);
    assert CountryOf(s) in ccs;
    assert ccs[..|ccs|] == ccs;
    TablesUpTo(a, states, ccs, |ccs|, s);
  }

  lemma {:induction false} UnmatchedUpTo(a: Atlas, states: seq<GeoState>, ccs: seq<string>, n: nat, u: GeoState)
    requires n <= |ccs| && DistinctIds(states)
    ensures u in MatchUpTo(a, states, ccs, n).unmatched <==>
            u.countryCode in ccs[..n] && u in Matched(a, states, u.countryCode).unmatched
  {
    hide Matched, DistinctIds, Sound, FromPackage, IdsOf;
    if n > 0 {
      UnmatchedUpTo(a, states, ccs, n - 1, u);
      assert ccs[..n] == ccs[..n - 1] + [ccs[n - 1]];
      MatchedFacts(a, states, ccs[n - 1]);
    }
  }

  /** Every id with a code belongs to a state. */
  ghost predicate KnownIds(states: seq<GeoState>, iso: map<int, string>) {
    forall i :: i in iso ==> exists s :: s in states && s.id == i
  }

  lemma NothingKnown(states: seq<GeoState>)
    ensures KnownIds(states, map[])
  {
  }

  lemma BothKnown(states: seq<GeoState>, t: Tables, m: Match)
    requires KnownIds(states, t.iso) && KnownIds(states, m.iso)
    ensures KnownIds(states, Merge(t, m).iso)
  {
  }

  lemma {:induction false} TableIds(a: Atlas, states: seq<GeoState>, ccs: seq<string>, n: nat)
    requires n <= |ccs| && DistinctIds(states)
    ensures KnownIds(states, MatchUpTo(a, states, ccs, n).iso)
  {
    hide Matched, DistinctIds, KnownIds, Merge;
    if n == 0 {
      NothingKnown(states);
    } else {
      TableIds(a, states, ccs, n - 1);
      CountryIdsKnown(a, states, ccs[n - 1]);
      BothKnown(states, MatchUpTo(a, states, ccs, n - 1), Matched(a, states, ccs[n - 1]));
    }
  }

  lemma CountryIdsKnown(a: Atlas, states: seq<GeoState>, cc: string)
    requires DistinctIds(states)
    ensures KnownIds(states, Matched(a, states, cc).iso)
  {
    hide Matched, DistinctIds, Sound, FromPackage, Members;
    MatchedFacts(a, states, cc);
    var ss, m := CountryStates(states, cc), Matched(a, states, cc);
    forall i | i in m.iso
      ensures exists s :: s in states && s.id == i
    {
      var k :| 0 <= k < |ss| && ss[k].id == i;
      assert ss[k] in ss && ss[k] in states;
    }
  }

  /** Two states of one country with the same code. */
  ghost predicate SameCode(states: seq<GeoState>, t: Tables, s: GeoState, r: GeoState) {
    && s in states && r in states && s.countryCode == r.countryCode
    && s.id in t.iso && r.id in t.iso && t.iso[s.id] == t.iso[r.id]
  }

  /** All countries: codes are unique within a country, and every state is exactly one of
      kept with its own code, backfilled with a package code, or unmatched. */
  lemma StatesPartitioned(a: Atlas, states: seq<GeoState>)
    requires DistinctIds(states)
    ensures var t := MatchStates(a, states);
            && (forall s, r :: SameCode(states, t, s, r) ==> s == r)
            && KnownIds(states, t.iso)
            && (forall u :: u in t.unmatched <==> u in states && u.id !in t.iso)
            && (forall s :: s in states && s.id in t.back ==>
                  s.id in t.iso && t.iso[s.id] == t.back[s.id]
                  && exists p :: p in a.statesOf(s.countryCode) && p.isoCode == t.back[s.id])
            && (forall s :: s in states && s.id in t.iso && s.id !in t.back ==> t.iso[s.id] == s.isoCode != "")
  {
    hide MatchStates, Matched, DistinctIds, Partitioned, KnownIds;
    var t := MatchStates(a, states);
    MatchedIds(a, states);
    forall s, r | SameCode(states, t, s, r)
      ensures s == r
    {
      OneStatePerCode(a, states, s, r);
    }
    forall u
      ensures u in t.unmatched <==> u in states && u.id !in t.iso
    {
      UnmatchedAt(a, states, u);
    }
    forall s | s in states && s.id in t.iso
      ensures s.id in t.back ==> t.iso[s.id] == t.back[s.id]
                                 && exists p :: p in a.statesOf(s.countryCode) && p.isoCode == t.back[s.id]
      ensures s.id !in t.back ==> t.iso[s.id] == s.isoCode != ""
    {
      StateAt(a, states, s);
    }
    forall s | s in states && s.id in t.back
      ensures s.id in t.iso
    {
      StateAt(a, states, s);
    }
  }

  lemma MatchedIds(a: Atlas, states: seq<GeoState>)
    requires DistinctIds(states)
    ensures KnownIds(states, MatchStates(a, states).iso)
  {
    hide MatchUpTo, DistinctIds, KnownIds;
    var ccs := FirstSeen(states, CountryOf);
    TableIds(a, states, ccs, |ccs|);
  }

  lemma OneStatePerCode(a: Atlas, states: seq<GeoState>, s: GeoState, r: GeoState)
    requires DistinctIds(states) && SameCode(states, MatchStates(a, states), s, r)
    ensures s == r
  {
    hide MatchStates, Matched, DistinctIds;
    TablesAt(a, states, s);
    TablesAt(a, states, r);
    MatchedFacts(a, states, s.countryCode);
    SameId(states, s, r);
  }

  lemma UnmatchedAt(a: Atlas, states: seq<GeoState>, u: GeoState)
    requires DistinctIds(states)
    ensures var t := MatchStates(a, states);
            && (u in t.unmatched <==> u in states && u.id !in t.iso)
            && (u in t.unmatched <==> u in states && u in Matched(a, states, u.countryCode).unmatched)
  {
    hide MatchUpTo, Matched, DistinctIds, Sound, FromPackage, IdsOf;
    var ccs := FirstSeen(states, CountryOf);
    assert ccs[..|ccs|] == ccs;
    UnmatchedUpTo(a, states, ccs, |ccs|, u);
    MatchedFacts(a, states, u.countryCode);
    if u in states {
      assert CountryOf(u) in ccs;
      TablesAt(a, states, u);
    }
  }

  lemma StateAt(a: Atlas, states: seq<GeoState>, s: GeoState)
    requires DistinctIds(states) && s in states
    ensures var t := MatchStates(a, states);
            && (s.id in t.back ==> s.id in t.iso && t.iso[s.id] == t.back[s.id]
                                   && exists p :: p in a.statesOf(s.countryCode) && p.isoCode == t.back[s.id])
            && (s.id in t.iso && s.id !in t.back ==> t.iso[s.id] == s.isoCode != "")
  {
    hide MatchStates, Matched, DistinctIds;
    TablesAt(a, states, s);
    MatchedFacts(a, states, s.countryCode);
  }

  // ---------------------------------------------------------------------------------
  // With unique ids, the shared tables are the merged tables of the countries

  /** A country's matching with the tables of earlier countries underneath. */
  function Over(t: Tables, m: Match): Match {
    Match(t.iso + m.iso, t.back + m.back, m.used, t.unmatched + m.unmatched)
  }

  ghost predicate Foreign(t: Tables, ss: seq<GeoState>) {
    forall s :: s in ss ==> s.id !in t.iso
  }

  lemma {:induction false} KeepOver(ss: seq<GeoState>, t: Tables, n: nat)
    requires n <= |ss|
    ensures KeepFrom(ss, Open(t), n) == Over(t, Keep(ss, n))
  {
    hide Over, KeepStep;
    if n == 0 {
      OpenOver(t);
    } else {
      KeepOver(ss, t, n - 1);
      KeepStepOver(ss[n - 1], t, Keep(ss, n - 1));
    }
  }

  lemma OpenOver(t: Tables)
    ensures Open(t) == Over(t, NoMatch)
  {
  }

  lemma KeepStepOver(s: GeoState, t: Tables, m: Match)
    ensures KeepStep(s, Over(t, m)) == Over(t, KeepStep(s, m))
  {
    AddOver(t.iso, m.iso, s.id, s.isoCode);
  }

  lemma AddOver(m: map<int, string>, k: map<int, string>, id: int, iso: string)
    ensures (m + k)[id := iso] == m + k[id := iso]
  {
  }

  lemma TakeOver(t: Tables, m: Match, id: int, iso: string)
    ensures Take(Over(t, m), id, iso) == Over(t, Take(m, id, iso))
  {
    AddOver(t.iso, m.iso, id, iso);
    AddOver(t.back, m.back, id, iso);
  }

  lemma GiveUpOver(t: Tables, m: Match, s: GeoState)
    ensures Over(t, m).(unmatched := Over(t, m).unmatched + [s]) == Over(t, m.(unmatched := m.unmatched + [s]))
  {
    assert (t.unmatched + m.unmatched) + [s] == t.unmatched + (m.unmatched + [s]);
  }

  lemma LookOver(t: Tables, m: Match, id: int)
    requires id !in t.iso
    ensures Over(t, m).used == m.used && (id in Over(t, m).iso <==> id in m.iso)
  {
  }

  lemma PassStepOver(a: Atlas, cc: string, rule: Rule, s: GeoState, t: Tables, m: Match)
    requires s.id !in t.iso
    ensures PassStep(a, cc, rule, s, Over(t, m)) == Over(t, PassStep(a, cc, rule, s, m))
  {
    hide Candidates, Over, Take;
    LookOver(t, m, s.id);
    var candidates := Candidates(a, cc, rule, m.used, s.name);
    if |candidates| == 1 {
      TakeOver(t, m, s.id, candidates[0].isoCode);
    }
  }

  lemma FuzzyStepOver(a: Atlas, cc: string, s: GeoState, t: Tables, m: Match)
    requires s.id !in t.iso
    ensures FuzzyStep(a, cc, s, Over(t, m)) == Over(t, FuzzyStep(a, cc, s, m))
  {
    hide FuzzyPick, Over, Take;
    LookOver(t, m, s.id);
    var pick := FuzzyPick(a, cc, m.used, s.name);
    if pick.Some? {
      TakeOver(t, m, s.id, pick.value.isoCode);
    } else {
      GiveUpOver(t, m, s);
    }
  }

  lemma {:induction false} PassOver(a: Atlas, cc: string, rule: Rule, ss: seq<GeoState>, t: Tables, m: Match, n: nat)
    requires n <= |ss| && Foreign(t, ss)
    ensures Pass(a, cc, rule, ss, Over(t, m), n) == Over(t, Pass(a, cc, rule, ss, m, n))
  {
    hide Over, PassStep;
    if n > 0 {
      PassOver(a, cc, rule, ss, t, m, n - 1);
      assert ss[n - 1] in ss;
      PassStepOver(a, cc, rule, ss[n - 1], t, Pass(a, cc, rule, ss, m, n - 1));
    }
  }

  lemma {:induction false} FuzzyOver(a: Atlas, cc: string, ss: seq<GeoState>, t: Tables, m: Match, n: nat)
    requires n <= |ss| && Foreign(t, ss)
    ensures Fuzzy(a, cc, ss, Over(t, m), n) == Over(t, Fuzzy(a, cc, ss, m, n))
  {
    hide Over, FuzzyStep;
    if n > 0 {
      FuzzyOver(a, cc, ss, t, m, n - 1);
      assert ss[n - 1] in ss;
      FuzzyStepOver(a, cc, ss[n - 1], t, Fuzzy(a, cc, ss, m, n - 1));
    }
  }

  lemma CountryOver(a: Atlas, cc: string, ss: seq<GeoState>, t: Tables)
    requires Foreign(t, ss)
    ensures MatchFrom(a, cc, ss, Open(t)) == Over(t, CountryMatch(a, cc, ss))
  {
    hide Over, Open, Keep, KeepFrom, Pass, Fuzzy, Foreign;
    KeepOver(ss, t, |ss|);
    var k := Keep(ss, |ss|);
    var m1 := Pass(a, cc, Alias, ss, k, |ss|);
    var m2 := Pass(a, cc, Exact, ss, m1, |ss|);
    PassOver(a, cc, Alias, ss, t, k, |ss|);
    PassOver(a, cc, Exact, ss, t, m1, |ss|);
    PassOver(a, cc, Loose, ss, t, m2, |ss|);
    FuzzyOver(a, cc, ss, t, Passes(a, cc, ss, k), |ss|);
  }

  lemma EarlierForeign(a: Atlas, states: seq<GeoState>, ccs: seq<string>, n: nat)
    requires n < |ccs| && DistinctIds(states)
    requires forall i, j :: 0 <= i < j < |ccs| ==> ccs[i] != ccs[j]
    ensures Foreign(MatchUpTo(a, states, ccs, n), CountryStates(states, ccs[n]))
  {
    hide MatchUpTo, DistinctIds, Members;
    forall s | s in CountryStates(states, ccs[n])
      ensures s.id !in MatchUpTo(a, states, ccs, n).iso
    {
      TablesUpTo(a, states, ccs, n, s);
      assert s.countryCode !in ccs[..n];
    }
  }

  lemma {:induction false} SharedUpToMerged(a: Atlas, states: seq<GeoState>, ccs: seq<string>, n: nat)
    requires n <= |ccs| && DistinctIds(states)
    requires forall i, j :: 0 <= i < j < |ccs| ==> ccs[i] != ccs[j]
    ensures SharedUpTo(a, states, ccs, n) == MatchUpTo(a, states, ccs, n)
  {
    hide MatchFrom, CountryMatch, CountryStates, DistinctIds, Foreign, Open;
    if n > 0 {
      SharedUpToMerged(a, states, ccs, n - 1);
      EarlierForeign(a, states, ccs, n - 1);
      CountryOver(a, ccs[n - 1], CountryStates(states, ccs[n - 1]), MatchUpTo(a, states, ccs, n - 1));
    }
  }

  /** With unique state ids it makes no difference that the countries share their tables. */
  lemma SharedIsMerged(a: Atlas, states: seq<GeoState>)
    requires DistinctIds(states)
    ensures SharedTables(a, states) == MatchStates(a, states)
  {
    hide MatchUpTo, SharedUpTo, DistinctIds;
    var ccs := FirstSeen(states, CountryOf);
    SharedUpToMerged(a, states, ccs, |ccs|);
  }

  // ---------------------------------------------------------------------------------
  // Rerun over all states

  lemma {:induction false} RefillKeepsCountries(states: seq<GeoState>, back: map<int, string>)
    ensures FirstSeen(RefillAll(states, back), CountryOf) == FirstSeen(states, CountryOf)
  {
    if states != [] {
      var n := |states| - 1;
      RefillKeepsCountries(states[..n], back);
      assert RefillAll(states, back)[..n] == RefillAll(states[..n], back);
    }
  }

  lemma OneMoreState(states: seq<GeoState>, s: GeoState, cc: string)
    ensures CountryStates(states + [s], cc) == CountryStates(states, cc) + if s.countryCode == cc then [s] else []
  {
    hide Members;
    MembersStep(states, s, CountryOf, cc);
  }

  lemma OneMoreRefill(states: seq<GeoState>, s: GeoState, back: map<int, string>)
    ensures RefillAll(states + [s], back) == RefillAll(states, back) + [Refill(s, back)]
  {
    hide Refill;
  }

  lemma {:induction false} RefillByCountry(states: seq<GeoState>, cc: string, all: map<int, string>, own: map<int, string>)
    requires forall s :: s in states && s.countryCode == cc ==> Refill(s, all) == Refill(s, own)
    ensures CountryStates(RefillAll(states, all), cc) == RefillAll(CountryStates(states, cc), own)
  {
    if states != [] {
      hide CountryStates, RefillAll, Refill;
      var n := |states| - 1;
      var rest, last := states[..n], states[n];
      assert states == rest + [last];
      RefillByCountry(rest, cc, all, own);
      OneMoreState(rest, last, cc);
      OneMoreRefill(rest, last, all);
      OneMoreState(RefillAll(rest, all), Refill(last, all), cc);
      OneMoreRefill(CountryStates(rest, cc), last, own);
      SameCountryRefilled(last, all);
    }
  }

  lemma SameCountryRefilled(s: GeoState, back: map<int, string>)
    ensures Refill(s, back).countryCode == s.countryCode
  {
  }

  /** One country's matching in the rerun. */
  lemma RerunOf(a: Atlas, states: seq<GeoState>, cc: string)
    requires DistinctIds(states) && PackageCoded(a)
    ensures var m := Matched(a, states, cc);
            var again := Matched(a, RefillAll(states, MatchStates(a, states).back), cc);
            && (again.back == map[] <==> forall u :: u in m.unmatched ==> Stuck(a, cc, m.used, u.name))
            && (again.back == map[] ==> again.iso == m.iso)
  {
    hide CountryMatch, MatchStates, DistinctIds, Stuck, RefillAll, Refill;
    var t, m := MatchStates(a, states), Matched(a, states, cc);
    forall s | s in states && s.countryCode == cc
      ensures Refill(s, t.back) == Refill(s, m.back)
    {
      SameRefill(a, states, s);
    }
    RefillByCountry(states, cc, t.back, m.back);
    MembersDistinct(states, cc);
    CountryRerun(a, cc, CountryStates(states, cc));
  }

  lemma SameRefill(a: Atlas, states: seq<GeoState>, s: GeoState)
    requires DistinctIds(states) && s in states
    ensures Refill(s, MatchStates(a, states).back) == Refill(s, Matched(a, states, s.countryCode).back)
  {
    hide MatchStates, Matched, DistinctIds;
    TablesAt(a, states, s);
  }

  ghost predicate AllQuiet(a: Atlas, states: seq<GeoState>, ccs: seq<string>, n: nat)
    requires n <= |ccs|
  {
    forall j :: 0 <= j < n ==> Matched(a, states, ccs[j]).back == map[]
  }

  lemma {:induction false} RerunUpTo(a: Atlas, states: seq<GeoState>, ccs: seq<string>, n: nat)
    requires n <= |ccs| && DistinctIds(states) && PackageCoded(a)
    ensures var t := MatchUpTo(a, states, ccs, n);
            var states' := RefillAll(states, MatchStates(a, states).back);
            var t' := MatchUpTo(a, states', ccs, n);
            && (t'.back == map[] <==> AllQuiet(a, states', ccs, n))
            && (t'.back == map[] ==> t'.iso == t.iso)
  {
    hide Matched, MatchStates, DistinctIds, Stuck, RefillAll, PackageCoded;
    if n > 0 {
      var states' := RefillAll(states, MatchStates(a, states).back);
      RerunUpTo(a, states, ccs, n - 1);
      RerunOf(a, states, ccs[n - 1]);
      EmptyUnion(MatchUpTo(a, states', ccs, n - 1).back, Matched(a, states', ccs[n - 1]).back);
    }
  }

  lemma EmptyUnion(m: map<int, string>, k: map<int, string>)
    ensures m + k == map[] <==> m == map[] && k == map[]
  {
    if m + k == map[] {
      assert forall i :: i in m || i in k ==> i in m + k;
    }
  }

  /** No unmatched state can be given a code with the codes its country uses in the end. */
  ghost predicate NothingLeft(a: Atlas, states: seq<GeoState>) {
    forall u :: u in MatchStates(a, states).unmatched ==>
      Stuck(a, u.countryCode, Matched(a, states, u.countryCode).used, u.name)
  }

  /** Storing the new codes and matching again adds no code exactly when nothing is left to
      match; the codes, and the states without one, are then the same. */
  lemma StatesRerun(a: Atlas, states: seq<GeoState>)
    requires DistinctIds(states) && PackageCoded(a)
    ensures var t := MatchStates(a, states);
            var t' := MatchStates(a, RefillAll(states, t.back));
            && (t'.back == map[] <==> NothingLeft(a, states))
            && (t'.back == map[] ==> t'.iso == t.iso)
  {
    hide Matched, MatchUpTo, DistinctIds, Stuck, RefillAll, PackageCoded, NothingLeft, AllQuiet;
    var t := MatchStates(a, states);
    var ccs := FirstSeen(states, CountryOf);
    RefillKeepsCountries(states, t.back);
    RerunUpTo(a, states, ccs, |ccs|);
    QuietIffNothingLeft(a, states);
  }

  lemma QuietIffNothingLeft(a: Atlas, states: seq<GeoState>)
    requires DistinctIds(states) && PackageCoded(a)
    ensures var ccs := FirstSeen(states, CountryOf);
            AllQuiet(a, RefillAll(states, MatchStates(a, states).back), ccs, |ccs|) <==> NothingLeft(a, states)
  {
    hide Matched, MatchStates, DistinctIds, Stuck, RefillAll, PackageCoded;
    var ccs := FirstSeen(states, CountryOf);
    var states' := RefillAll(states, MatchStates(a, states).back);
    if AllQuiet(a, states', ccs, |ccs|) {
      forall u | u in MatchStates(a, states).unmatched
        ensures Stuck(a, u.countryCode, Matched(a, states, u.countryCode).used, u.name)
      {
        UnmatchedAt(a, states, u);
        assert CountryOf(u) in ccs;
        RerunOf(a, states, u.countryCode);
      }
    }
    if NothingLeft(a, states) {
      forall j | 0 <= j < |ccs|
        ensures Matched(a, states', ccs[j]).back == map[]
      {
        RerunOf(a, states, ccs[j]);
        UnmatchedOf(a, states, ccs[j]);
      }
    }
  }

  lemma UnmatchedOf(a: Atlas, states: seq<GeoState>, cc: string)
    requires DistinctIds(states)
    ensures forall u :: u in Matched(a, states, cc).unmatched ==> u.countryCode == cc && u in MatchStates(a, states).unmatched
  {
    hide Matched, MatchStates, DistinctIds, Sound, FromPackage, IdsOf;
    MatchedFacts(a, states, cc);
    forall u | u in Matched(a, states, cc).unmatched
      ensures u.countryCode == cc && u in MatchStates(a, states).unmatched
    {
      assert u in CountryStates(states, cc);
      UnmatchedAt(a, states, u);
    }
  }
}

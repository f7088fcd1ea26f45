/** Which stored codes the repair leaves alone. A state keeps its stored code exactly when no
    earlier state of its country has the same one; a repeated code counts as no code. */
module GeoStoredCodes {
  import opened GeoData
  import opened GeoStates
  import opened GeoRerun
  import opened GeoTables

  // ---------------------------------------------------------------------------------
  // One country

  /** No earlier state of the list has this state's code. */
  ghost predicate FirstOfCode(ss: seq<GeoState>, k: nat)
    requires k < |ss|
  {
    ss[k].isoCode != "" && forall j :: 0 <= j < k ==> ss[j].isoCode != ss[k].isoCode
  }

  /** The codes in use after the first pass are the non-empty stored ones. */
  lemma {:induction false} KeptCodes(ss: seq<GeoState>, n: nat)
    requires n <= |ss|
    ensures forall u :: u in Keep(ss, n).used <==> u != "" && exists j :: 0 <= j < n && ss[j].isoCode == u
  {
    if n > 0 {
      KeptCodes(ss, n - 1);
      var m, s := Keep(ss, n - 1), ss[n - 1];
      forall u
        ensures u in Keep(ss, n).used <==> u in m.used || (u != "" && u == s.isoCode)
      {
      }
    }
  }

  lemma {:induction false} KeptExactly(ss: seq<GeoState>, n: nat, k: nat)
    requires k < n <= |ss| && DistinctIds(ss)
    ensures ss[k].id in Keep(ss, n).iso <==> FirstOfCode(ss, k)
    ensures FirstOfCode(ss, k) ==> Keep(ss, n).iso[ss[k].id] == ss[k].isoCode
  {
    hide DistinctIds;
    KeptCodes(ss, n - 1);
    if k == n - 1 {
      KeepNew(ss, n);
    } else {
      KeptExactly(ss, n - 1, k);
      Apart(ss, k, n - 1);
    }
  }

  lemma Apart(ss: seq<GeoState>, j: nat, k: nat)
    requires DistinctIds(ss) && j < k < |ss|
    ensures ss[j].id != ss[k].id
  {
  }

  lemma CountryKeeps(a: Atlas, cc: string, ss: seq<GeoState>, k: nat)
    requires DistinctIds(ss) && k < |ss|
    ensures var m := CountryMatch(a, cc, ss);
            && (ss[k].id in m.iso && ss[k].id !in m.back <==> FirstOfCode(ss, k))
            && (FirstOfCode(ss, k) ==> m.iso[ss[k].id] == ss[k].isoCode)
  {
    hide Keep, Passes, Fuzzy, FirstOfCode, DistinctIds, CountryMatch;
    KeptExactly(ss, |ss|, k);
    KeptStays(a, cc, ss);
    KeepSound(ss, |ss|);
  }

  // ---------------------------------------------------------------------------------
  // All states

  /** No earlier state of the same country has this state's code. */
  ghost predicate FirstInCountry(states: seq<GeoState>, k: nat)
    requires k < |states|
  {
    && states[k].isoCode != ""
    && forall j :: 0 <= j < k && states[j].countryCode == states[k].countryCode ==> states[j].isoCode != states[k].isoCode
  }

  lemma {:induction false} MembersConcat(xs: seq<GeoState>, ys: seq<GeoState>, cc: string)
    ensures CountryStates(xs + ys, cc) == CountryStates(xs, cc) + CountryStates(ys, cc)
  {
    if ys == [] {
      assert xs + ys == xs;
    } else {
      hide CountryStates;
      var rest, last := ys[..|ys| - 1], ys[|ys| - 1];
      MembersConcat(xs, rest, cc);
      assert ys == rest + [last] && xs + ys == (xs + rest) + [last];
      OneMoreState(rest, last, cc);
      OneMoreState(xs + rest, last, cc);
    }
  }

  /** Where a state stands in the list of its country. */
  lemma Position(states: seq<GeoState>, k: nat) returns (p: nat)
    requires k < |states|
    ensures var ss := CountryStates(states, states[k].countryCode);
            && p < |ss| && ss[p] == states[k]
            && ss[..p] == CountryStates(states[..k], states[k].countryCode)
            && (FirstOfCode(ss, p) <==> FirstInCountry(states, k))
  {
    var s := states[k];
    var cc := s.countryCode;
    var before, ss := CountryStates(states[..k], cc), CountryStates(states, cc);
    assert states == states[..k] + ([s] + states[k + 1..]);
    MembersConcat(states[..k], [s] + states[k + 1..], cc);
    MembersConcat([s], states[k + 1..], cc);
    assert CountryStates([s], cc) == [s] by { OneMoreState([], s, cc); assert [] + [s] == [s]; }
    p := |before|;
    assert ss[..p] == before;
    SameFirst(states, k, ss, p);
  }

  lemma SameFirst(states: seq<GeoState>, k: nat, ss: seq<GeoState>, p: nat)
    requires k < |states| && p < |ss| && ss[p] == states[k]
    requires ss[..p] == CountryStates(states[..k], states[k].countryCode)
    ensures FirstOfCode(ss, p) <==> FirstInCountry(states, k)
  {
    hide CountryStates;
    if FirstOfCode(ss, p) {
      forall j | 0 <= j < k && states[j].countryCode == states[k].countryCode
        ensures states[j].isoCode != states[k].isoCode
      {
        assert states[..k][j] == states[j] && states[j] in ss[..p];
        var i :| 0 <= i < p && ss[..p][i] == states[j];
        assert ss[i] == states[j];
      }
    }
    if FirstInCountry(states, k) {
      forall i | 0 <= i < p
        ensures ss[i].isoCode != ss[p].isoCode
      {
        assert ss[..p][i] in ss[..p];
        var j :| 0 <= j < k && states[..k][j] == ss[i];
        assert states[j] == ss[i];
      }
    }
  }

  /** A stored code is kept, and not replaced, exactly for the first state of its country
      that has it. So a backfilled state had no code or repeated an earlier one. */
  lemma StoredCodeKept(a: Atlas, states: seq<GeoState>, k: nat)
    requires DistinctIds(states) && k < |states|
    ensures var t, s := MatchStates(a, states), states[k];
            && (s.id in t.iso && s.id !in t.back <==> FirstInCountry(states, k))
            && (FirstInCountry(states, k) ==> t.iso[s.id] == s.isoCode)
  {
    hide MatchStates, CountryMatch, FirstInCountry, FirstOfCode, DistinctIds, CountryStates;
    var s := states[k];
    var p := Position(states, k);
    MembersDistinct(states, s.countryCode);
    CountryKeeps(a, s.countryCode, CountryStates(states, s.countryCode), p);
    TablesAt(a, states, s);
  }

  /** Stored codes are unique within each country. */
  ghost predicate UniqueCodes(states: seq<GeoState>) {
    forall k :: 0 <= k < |states| && states[k].isoCode != "" ==> FirstInCountry(states, k)
  }

  /** New codes go only to states without a stored one. */
  ghost predicate FillsEmptyOnly(a: Atlas, states: seq<GeoState>) {
    forall s :: s in states && s.id in MatchStates(a, states).back ==> s.isoCode == ""
  }

  lemma UniqueCodesStay(a: Atlas, states: seq<GeoState>)
    requires DistinctIds(states) && UniqueCodes(states)
    ensures FillsEmptyOnly(a, states)
  {
    hide MatchStates, FirstInCountry, DistinctIds;
    forall s | s in states && s.id in MatchStates(a, states).back
      ensures s.isoCode == ""
    {
      var k :| 0 <= k < |states| && states[k] == s;
      StoredCodeKept(a, states, k);
    }
  }

  /** For a given package and given names: only empty codes are filled exactly if every state
      that repeats an earlier code of its country is left unmatched. */
  lemma FillsEmptyOnlyExactly(a: Atlas, states: seq<GeoState>)
    requires DistinctIds(states)
    ensures FillsEmptyOnly(a, states) <==>
            forall k :: 0 <= k < |states| && states[k].isoCode != "" && !FirstInCountry(states, k) ==>
              states[k] in MatchStates(a, states).unmatched
  {
    hide MatchStates, FirstInCountry, DistinctIds, Matched;
    forall k | 0 <= k < |states|
      ensures states[k].id in MatchStates(a, states).back <==>
              !FirstInCountry(states, k) && states[k] !in MatchStates(a, states).unmatched
    {
      assert states[k] in states;
      StoredCodeKept(a, states, k);
      UnmatchedAt(a, states, states[k]);
      StateAt(a, states, states[k]);
    }
    assert forall s :: s in states <==> exists k :: 0 <= k < |states| && states[k] == s;
  }
}

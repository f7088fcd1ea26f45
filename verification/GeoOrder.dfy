/** The second run of the state matching with its rows read in any order. Nothing changes in
    any order exactly when nothing is left to match and no unmatched state has a stored code. */
module GeoOrder {
  import opened GeoData
  import opened GeoStates
  import opened GeoRerun
  import opened GeoTables
  import opened GeoStoredCodes
  import opened GeoShuffle

  // ---------------------------------------------------------------------------------
  // Reordered rows keep their ids apart

  ghost predicate Apart<T(!new)>(xs: seq<T>, id: T -> int) {
    forall i, j :: 0 <= i < j < |xs| ==> id(xs[i]) != id(xs[j])
  }

  lemma {:induction false} CountedOnce<T(!new)>(xs: seq<T>, id: T -> int, x: T)
    requires Apart(xs, id)
    ensures multiset(xs)[x] <= 1
  {
    if xs != [] {
      var n := |xs| - 1;
      CountedOnce(xs[..n], id, x);
      assert xs == xs[..n] + [xs[n]];
      if x in xs[..n] {
        assert x != xs[n];
      }
    }
  }

  lemma CountedTwice<T>(xs: seq<T>, i: nat, j: nat)
    requires i < j < |xs| && xs[i] == xs[j]
    ensures multiset(xs)[xs[i]] >= 2
  {
    var x := xs[i];
    assert xs == xs[..j] + xs[j..];
    assert xs[..j][i] == x && xs[j..][0] == x;
    assert multiset(xs[..j])[x] >= 1 && multiset(xs[j..])[x] >= 1;
  }

  lemma StillApart<T(!new)>(xs: seq<T>, ys: seq<T>, id: T -> int)
    requires Apart(xs, id) && multiset(ys) == multiset(xs)
    ensures Apart(ys, id)
  {
    SameElements(xs, ys);
    forall i, j | 0 <= i < j < |ys|
      ensures id(ys[i]) != id(ys[j])
    {
      CountedOnce(xs, id, ys[i]);
      if ys[i] == ys[j] {
        CountedTwice(ys, i, j);
        assert false;
      }
      assert ys[i] in xs && ys[j] in xs;
    }
  }

  function IdOf(s: GeoState): int {
    s.id
  }

  lemma StillDistinct(states: seq<GeoState>, rows: seq<GeoState>)
    requires DistinctIds(states) && multiset(rows) == multiset(states)
    ensures DistinctIds(rows)
  {
    StillApart(states, rows, IdOf);
    assert forall i, j :: 0 <= i < j < |rows| ==> IdOf(rows[i]) != IdOf(rows[j]);
  }

  // ---------------------------------------------------------------------------------
  // One country whose rows have exactly the codes of an earlier matching

  ghost predicate Settled(ss: seq<GeoState>, iso: map<int, string>) {
    forall s :: s in ss ==> if s.id in iso then s.isoCode == iso[s.id] != "" else s.isoCode == ""
  }

  lemma SettledFirst(ss: seq<GeoState>, m: Match, k: nat)
    requires k < |ss| && DistinctIds(ss) && Sound(m) && Settled(ss, m.iso)
    ensures FirstOfCode(ss, k) <==> ss[k].id in m.iso
  {
    assert ss[k] in ss;
    if ss[k].id in m.iso {
      forall j | 0 <= j < k
        ensures ss[j].isoCode != ss[k].isoCode
      {
        assert ss[j] in ss && ss[j].id != ss[k].id;
      }
    }
  }

  /** The first pass then finds the same codes in any order of the rows. */
  lemma SettledKeep(ss: seq<GeoState>, m: Match)
    requires DistinctIds(ss) && Sound(m) && IdsOf(ss, m) && Settled(ss, m.iso)
    ensures var k := Keep(ss, |ss|); k.iso == m.iso && k.used == m.used
  {
    hide Keep, FirstOfCode, DistinctIds, Sound;
    var k := Keep(ss, |ss|);
    KeepSound(ss, |ss|);
    assert ss[..|ss|] == ss;
    forall j | 0 <= j < |ss|
      ensures ss[j].id in k.iso <==> ss[j].id in m.iso
      ensures ss[j].id in k.iso ==> k.iso[ss[j].id] == m.iso[ss[j].id]
    {
      assert ss[j] in ss;
      SettledFirst(ss, m, j);
      KeptExactly(ss, |ss|, j);
    }
    assert forall i :: i in k.iso <==> i in m.iso;
    forall i | i in k.iso
      ensures k.iso[i] == m.iso[i]
    {
      var j :| 0 <= j < |ss| && ss[..|ss|][j].id == i;
      assert ss[j].id in k.iso;
    }
    assert k.iso == m.iso;
    UsedOf(k, m);
  }

  lemma UsedOf(k: Match, m: Match)
    requires Sound(k) && Sound(m) && k.iso == m.iso
    ensures k.used == m.used
  {
    assert forall u :: u in k.used ==> u in m.used;
    assert forall u :: u in m.used ==> u in k.used;
  }

  /** Matching such rows again adds no code exactly when every uncoded one is stuck. */
  lemma CountryAnyOrder(a: Atlas, cc: string, ss: seq<GeoState>, m: Match)
    requires DistinctIds(ss) && Sound(m) && IdsOf(ss, m) && Settled(ss, m.iso)
    ensures var again := CountryMatch(a, cc, ss);
            && (again.back == map[] <==> forall s :: s in ss && s.id !in m.iso ==> Stuck(a, cc, m.used, s.name))
            && (again.back == map[] ==> again.iso == m.iso)
  {
    hide Stuck, Keep, Passes, Fuzzy, Sound, IdsOf, DistinctIds, Settled;
    var k := Keep(ss, |ss|);
    KeepSound(ss, |ss|);
    SettledKeep(ss, m);
    IdleIffStuck(a, cc, ss, k);
    if AllStuck(a, cc, ss, k, |ss|) {
      forall s | s in ss && s.id !in m.iso
        ensures Stuck(a, cc, m.used, s.name)
      {
        var j :| 0 <= j < |ss| && ss[j] == s;
      }
    }
  }

  // ---------------------------------------------------------------------------------
  // All countries

  /** The rows after the new codes were stored, in some order. */
  ghost predicate StoredRows(a: Atlas, states: seq<GeoState>, rows: seq<GeoState>) {
    multiset(rows) == multiset(RefillAll(states, MatchStates(a, states).back))
  }

  /** No unmatched state has a stored code; a repeated one would be such a code. */
  ghost predicate NoCodeLost(a: Atlas, states: seq<GeoState>) {
    forall u :: u in MatchStates(a, states).unmatched ==> u.isoCode == ""
  }

  lemma StoredDistinct(a: Atlas, states: seq<GeoState>, rows: seq<GeoState>)
    requires DistinctIds(states) && StoredRows(a, states, rows)
    ensures DistinctIds(rows)
  {
    hide MatchStates, DistinctIds;
    var back := MatchStates(a, states).back;
    assert DistinctIds(RefillAll(states, back)) by { RefillDistinct(states, back); }
    StillDistinct(RefillAll(states, back), rows);
  }

  lemma RowOf(a: Atlas, states: seq<GeoState>, rows: seq<GeoState>, s: GeoState)
    requires StoredRows(a, states, rows) && s in states
    ensures Refill(s, MatchStates(a, states).back) in rows
  {
    hide MatchStates, Refill;
    var back := MatchStates(a, states).back;
    SameElements(rows, RefillAll(states, back));
    var i :| 0 <= i < |states| && states[i] == s;
    assert RefillAll(states, back)[i] == Refill(s, back);
  }

  lemma StateOf(a: Atlas, states: seq<GeoState>, rows: seq<GeoState>, r: GeoState) returns (s: GeoState)
    requires StoredRows(a, states, rows) && r in rows
    ensures s in states && r == Refill(s, MatchStates(a, states).back)
  {
    hide MatchStates, Refill;
    var back := MatchStates(a, states).back;
    SameElements(rows, RefillAll(states, back));
    var i :| 0 <= i < |states| && RefillAll(states, back)[i] == r;
    s := states[i];
  }

  /** A row has its code of the first run, or it is an unmatched state as it was. */
  lemma RowFacts(a: Atlas, states: seq<GeoState>, rows: seq<GeoState>, r: GeoState)
    requires DistinctIds(states) && PackageCoded(a) && StoredRows(a, states, rows) && r in rows
    ensures var t, m := MatchStates(a, states), Matched(a, states, r.countryCode);
            && (r.id in t.iso <==> r.id in m.iso)
            && (r.id in t.iso ==> r.isoCode == t.iso[r.id] == m.iso[r.id] != "")
            && (r.id !in t.iso ==> r in t.unmatched)
  {
    hide MatchStates, Matched, DistinctIds;
    var s := StateOf(a, states, rows, r);
    StatesPartitioned(a, states);
    TablesAt(a, states, s);
  }

  lemma OwnSettled(a: Atlas, states: seq<GeoState>, rows: seq<GeoState>, cc: string)
    requires DistinctIds(states) && PackageCoded(a) && StoredRows(a, states, rows) && NoCodeLost(a, states)
    ensures Settled(CountryStates(rows, cc), Matched(a, states, cc).iso)
  {
    hide MatchStates, Matched, DistinctIds, PackageCoded, StoredRows;
    forall r | r in CountryStates(rows, cc)
      ensures if r.id in Matched(a, states, cc).iso then r.isoCode == Matched(a, states, cc).iso[r.id] != "" else r.isoCode == ""
    {
      RowFacts(a, states, rows, r);
    }
  }

  lemma OwnIds(a: Atlas, states: seq<GeoState>, rows: seq<GeoState>, cc: string)
    requires DistinctIds(states) && StoredRows(a, states, rows)
    ensures IdsOf(CountryStates(rows, cc), Matched(a, states, cc)) && Sound(Matched(a, states, cc))
  {
    hide MatchStates, Matched, DistinctIds, StoredRows, Sound, FromPackage;
    MatchedFacts(a, states, cc);
    var ss, rs, m := CountryStates(states, cc), CountryStates(rows, cc), Matched(a, states, cc);
    forall i | i in m.iso
      ensures exists k :: 0 <= k < |rs| && rs[k].id == i
    {
      var k :| 0 <= k < |ss| && ss[k].id == i;
      assert ss[k] in ss;
      RowOf(a, states, rows, ss[k]);
      assert Refill(ss[k], MatchStates(a, states).back) in rs;
    }
  }

  /** One country in the second run. */
  lemma OwnQuiet(a: Atlas, states: seq<GeoState>, rows: seq<GeoState>, cc: string)
    requires DistinctIds(states) && PackageCoded(a) && StoredRows(a, states, rows)
    requires NoCodeLost(a, states) && NothingLeft(a, states)
    ensures Matched(a, rows, cc).back == map[] && Matched(a, rows, cc).iso == Matched(a, states, cc).iso
  {
    hide MatchStates, CountryMatch, DistinctIds, PackageCoded, StoredRows, Sound, IdsOf, Settled, Stuck, NoCodeLost, CountryStates;
    var rs, m := CountryStates(rows, cc), Matched(a, states, cc);
    OwnIds(a, states, rows, cc);
    OwnSettled(a, states, rows, cc);
    StoredDistinct(a, states, rows);
    MembersDistinct(rows, cc);
    CountryAnyOrder(a, cc, rs, m);
    forall r | r in rs && r.id !in m.iso
      ensures Stuck(a, cc, m.used, r.name)
    {
      RowFacts(a, states, rows, r);
    }
  }

  lemma {:induction false} QuietUpTo(a: Atlas, rows: seq<GeoState>, ccs: seq<string>, n: nat)
    requires n <= |ccs| && forall cc :: Matched(a, rows, cc).back == map[]
    ensures MatchUpTo(a, rows, ccs, n).back == map[]
  {
    hide Matched;
    if n > 0 {
      QuietUpTo(a, rows, ccs, n - 1);
    }
  }

  lemma AllQuietNow(a: Atlas, states: seq<GeoState>, rows: seq<GeoState>)
    requires DistinctIds(states) && PackageCoded(a) && StoredRows(a, states, rows)
    requires NoCodeLost(a, states) && NothingLeft(a, states)
    ensures MatchStates(a, rows).back == map[]
  {
    hide MatchUpTo, Matched, DistinctIds, PackageCoded, StoredRows, NoCodeLost, NothingLeft;
    forall cc
      ensures Matched(a, rows, cc).back == map[]
    {
      OwnQuiet(a, states, rows, cc);
    }
    var ccs := FirstSeen(rows, CountryOf);
    QuietUpTo(a, rows, ccs, |ccs|);
  }

  lemma SameCodeNow(a: Atlas, states: seq<GeoState>, rows: seq<GeoState>, i: int)
    requires DistinctIds(states) && PackageCoded(a) && StoredRows(a, states, rows)
    requires NoCodeLost(a, states) && NothingLeft(a, states)
    ensures var t, t' := MatchStates(a, states), MatchStates(a, rows);
            (i in t.iso <==> i in t'.iso) && (i in t.iso ==> t.iso[i] == t'.iso[i])
  {
    hide MatchStates, Matched, DistinctIds, PackageCoded, StoredRows, NoCodeLost, NothingLeft, Refill;
    StoredDistinct(a, states, rows);
    MatchedIds(a, states);
    MatchedIds(a, rows);
    var t, t' := MatchStates(a, states), MatchStates(a, rows);
    if i in t.iso {
      var s :| s in states && s.id == i;
      RowOf(a, states, rows, s);
      SameInRow(a, states, rows, s);
    }
    if i in t'.iso {
      var r :| r in rows && r.id == i;
      var s := StateOf(a, states, rows, r);
      SameInRow(a, states, rows, s);
    }
  }

  lemma SameInRow(a: Atlas, states: seq<GeoState>, rows: seq<GeoState>, s: GeoState)
    requires DistinctIds(states) && PackageCoded(a) && StoredRows(a, states, rows) && s in states
    requires NoCodeLost(a, states) && NothingLeft(a, states)
    ensures SameAt(MatchStates(a, rows), Matched(a, states, s.countryCode).(back := map[]), s.id)
    ensures Refill(s, MatchStates(a, states).back).id == s.id
    ensures SameAt(MatchStates(a, states), Matched(a, states, s.countryCode), s.id)
  {
    hide MatchStates, Matched, DistinctIds, PackageCoded, StoredRows, NoCodeLost, NothingLeft;
    StoredDistinct(a, states, rows);
    RowOf(a, states, rows, s);
    TablesAt(a, states, s);
    TablesAt(a, rows, Refill(s, MatchStates(a, states).back));
    OwnQuiet(a, states, rows, s.countryCode);
  }

  /** Whatever the order of the rows, the second run finds the same codes and adds none. */
  lemma QuietInAnyOrder(a: Atlas, states: seq<GeoState>, rows: seq<GeoState>)
    requires DistinctIds(states) && PackageCoded(a) && StoredRows(a, states, rows)
    requires NoCodeLost(a, states) && NothingLeft(a, states)
    ensures var t, t' := MatchStates(a, states), MatchStates(a, rows);
            && t'.back == map[] && t'.iso == t.iso
            && forall u :: u in t'.unmatched <==> u in t.unmatched
  {
    hide MatchStates, DistinctIds, PackageCoded, StoredRows, NoCodeLost, NothingLeft, KnownIds, SameCode;
    var t, t' := MatchStates(a, states), MatchStates(a, rows);
    AllQuietNow(a, states, rows);
    forall i: int
      ensures (i in t.iso <==> i in t'.iso) && (i in t.iso ==> t.iso[i] == t'.iso[i])
    {
      SameCodeNow(a, states, rows, i);
    }
    assert t'.iso == t.iso;
    StoredDistinct(a, states, rows);
    forall u
      ensures u in t'.unmatched <==> u in t.unmatched
    {
      SameLeft(a, states, rows, u);
    }
  }

  lemma SameLeft(a: Atlas, states: seq<GeoState>, rows: seq<GeoState>, u: GeoState)
    requires DistinctIds(states) && PackageCoded(a) && StoredRows(a, states, rows)
    requires MatchStates(a, rows).iso == MatchStates(a, states).iso
    ensures u in MatchStates(a, rows).unmatched <==> u in MatchStates(a, states).unmatched
  {
    hide MatchStates, Matched, DistinctIds, PackageCoded, StoredRows;
    StoredDistinct(a, states, rows);
    UnmatchedAt(a, rows, u);
    UnmatchedAt(a, states, u);
    if u in rows {
      RowFacts(a, states, rows, u);
    }
    if u in states {
      StateAt(a, states, u);
      RowOf(a, states, rows, u);
    }
  }

  // ---------------------------------------------------------------------------------
  // The converse

  ghost predicate QuietFor(a: Atlas, states: seq<GeoState>, rows: seq<GeoState>) {
    MatchStates(a, rows).back == map[] && MatchStates(a, rows).iso == MatchStates(a, states).iso
  }

  lemma ToFront(rows: seq<GeoState>, k: nat)
    requires k < |rows|
    ensures multiset([rows[k]] + rows[..k] + rows[k + 1..]) == multiset(rows)
  {
    assert rows == rows[..k] + [rows[k]] + rows[k + 1..];
  }

  /** An unmatched state with a stored code keeps it if it is read first. */
  lemma LostCodeReturns(a: Atlas, states: seq<GeoState>, u: GeoState) returns (rows: seq<GeoState>)
    requires DistinctIds(states) && u in MatchStates(a, states).unmatched && u.isoCode != ""
    ensures StoredRows(a, states, rows) && !QuietFor(a, states, rows) && u !in MatchStates(a, rows).unmatched
  {
    hide MatchStates, Matched, DistinctIds;
    UnmatchedAt(a, states, u);
    StateAt(a, states, u);
    var stored := RefillAll(states, MatchStates(a, states).back);
    var k :| 0 <= k < |states| && states[k] == u;
    assert stored[k] == u;
    ToFront(stored, k);
    rows := [stored[k]] + stored[..k] + stored[k + 1..];
    assert rows[0] == u;
    StoredDistinct(a, states, rows);
    StoredCodeKept(a, rows, 0);
    UnmatchedAt(a, rows, u);
  }

  /** A second run leaves all codes alone in every order of the rows exactly when nothing is
      left to match and no unmatched state has a stored code. */
  lemma QuietInAnyOrderIff(a: Atlas, states: seq<GeoState>)
    requires DistinctIds(states) && PackageCoded(a)
    ensures (forall rows :: StoredRows(a, states, rows) ==> QuietFor(a, states, rows)) <==>
            NothingLeft(a, states) && NoCodeLost(a, states)
  {
    hide MatchStates, Matched, DistinctIds, PackageCoded, NothingLeft;
    if NothingLeft(a, states) && NoCodeLost(a, states) {
      forall rows | StoredRows(a, states, rows)
        ensures QuietFor(a, states, rows)
      {
        QuietInAnyOrder(a, states, rows);
      }
    }
    if forall rows :: StoredRows(a, states, rows) ==> QuietFor(a, states, rows) {
      var stored := RefillAll(states, MatchStates(a, states).back);
      assert StoredRows(a, states, stored);
      StatesRerun(a, states);
      forall u | u in MatchStates(a, states).unmatched
        ensures u.isoCode == ""
      {
        if u.isoCode != "" {
          var rows := LostCodeReturns(a, states, u);
          assert false;
        }
      }
    }
  }

  /** Unique stored codes are never lost. */
  lemma UniqueNotLost(a: Atlas, states: seq<GeoState>)
    requires DistinctIds(states) && UniqueCodes(states)
    ensures NoCodeLost(a, states)
  {
    hide MatchStates, Matched, DistinctIds, FirstInCountry;
    forall u | u in MatchStates(a, states).unmatched
      ensures u.isoCode == ""
    {
      UnmatchedAt(a, states, u);
      var k :| 0 <= k < |states| && states[k] == u;
      StoredCodeKept(a, states, k);
    }
  }
}

/** Voting: a city votes for a state only when every package state its name appears under is
    that state; a group's winner needs a strict majority of the whole group. */
module GeoVotes {
  import opened Outcomes
  import opened GeoData
  import Ranking

  /** What the city phase reads of a state and of a city. */
  datatype Place = Place(id: int, name: string, countryCode: string)

  datatype Label = Label(name: string, countryCode: string, stateCode: string)

  function StateKey(countryCode: string, code: string): string {
    countryCode + "|" + code
  }

  function GroupKey(l: Label): string {
    StateKey(l.countryCode, l.stateCode)
  }

  /** Codes of the package states that have a city of this (normalised) name. */
  function CodesUnder(cities: seq<PkgCity>, normalize: string -> string, name: string): set<string> {
    set c | c in cities && normalize(c.name) == name :: c.stateCode
  }

  function CodesOf(a: Atlas, l: Label): set<string> {
    CodesUnder(a.citiesOf(l.countryCode), a.normalize, a.normalize(l.name))
  }

  /** The index of the first n package cities. */
  ghost predicate Indexed(cities: seq<PkgCity>, normalize: string -> string, n: nat, index: map<string, set<string>>)
    requires n <= |cities|
  {
    && (forall name :: name in index <==> CodesUnder(cities[..n], normalize, name) != {})
    && (forall name :: name in index ==> index[name] == CodesUnder(cities[..n], normalize, name))
  }

  method IndexCities(a: Atlas, cc: string) returns (index: map<string, set<string>>)
    ensures forall name :: name in index <==> CodesUnder(a.citiesOf(cc), a.normalize, name) != {}
    ensures forall name :: name in index ==> index[name] == CodesUnder(a.citiesOf(cc), a.normalize, name)
  {
    var cities := a.citiesOf(cc);
    index := map[];
    for i := 0 to |cities|
      invariant Indexed(cities, a.normalize, i, index)
    {
      var name := a.normalize(cities[i].name);
      IndexNext(cities, a.normalize, i, index);
      var codes := if name in index then index[name] else {};
      index := index[name := codes + {cities[i].stateCode}];
    }
    assert cities[..|cities|] == cities;
  }

  lemma IndexNext(cities: seq<PkgCity>, normalize: string -> string, i: nat, index: map<string, set<string>>)
    requires i < |cities| && Indexed(cities, normalize, i, index)
    ensures var name := normalize(cities[i].name);
            var codes := if name in index then index[name] else {};
            Indexed(cities, normalize, i + 1, index[name := codes + {cities[i].stateCode}])
  {
    hide CodesUnder;
    forall q: string
      ensures CodesUnder(cities[..i + 1], normalize, q) ==
              CodesUnder(cities[..i], normalize, q) + if q == normalize(cities[i].name) then {cities[i].stateCode} else {}
    {
      NextCity(cities, normalize, i, q);
    }
  }

  lemma NextCity(cities: seq<PkgCity>, normalize: string -> string, i: nat, q: string)
    requires i < |cities|
    ensures CodesUnder(cities[..i + 1], normalize, q) ==
            CodesUnder(cities[..i], normalize, q) + if q == normalize(cities[i].name) then {cities[i].stateCode} else {}
  {
    assert cities[..i + 1] == cities[..i] + [cities[i]];
  }

  /** The city votes for state id. */
  ghost predicate VotesFor(a: Atlas, keys: map<string, int>, l: Label, id: int) {
    && id != 0 && CodesOf(a, l) != {}
    && forall code :: code in CodesOf(a, l) ==> StateKey(l.countryCode, code) in keys && keys[StateKey(l.countryCode, code)] == id
  }

  lemma OneVoteEach(a: Atlas, keys: map<string, int>, l: Label, id: int, id': int)
    requires VotesFor(a, keys, l, id) && VotesFor(a, keys, l, id')
    ensures id == id'
  {
    var code :| code in CodesOf(a, l);
    assert keys[StateKey(l.countryCode, code)] == id;
  }

  method VoteByCityName(a: Atlas, keys: map<string, int>, l: Label) returns (vote: Option<int>)
    ensures forall id :: vote == Some(id) <==> VotesFor(a, keys, l, id)
  {
    var index := IndexCities(a, l.countryCode);
    if a.normalize(l.name) !in index {
      return None;
    }
    var codes := index[a.normalize(l.name)];
    var candidates: set<int>, picked, rest := {}, 0, codes;
    while rest != {}
      invariant rest <= codes
      invariant forall code :: code in codes - rest ==>
                  StateKey(l.countryCode, code) in keys && keys[StateKey(l.countryCode, code)] in candidates
      invariant forall id :: id in candidates ==> id != 0 && exists code :: code in codes && HasId(keys, l, code, id)
      invariant rest == codes || picked in candidates
      decreases |rest|
    {
      var code :| code in rest;
      rest := rest - {code};
      var key := StateKey(l.countryCode, code);
      if key !in keys || keys[key] == 0 {
        return None;
      }
      assert HasId(keys, l, code, keys[key]);
      picked := keys[key];
      candidates := candidates + {picked};
    }
    vote := if |candidates| == 1 then Some(picked) else None;
    forall id
      ensures vote == Some(id) <==> VotesFor(a, keys, l, id)
    {
      SingleCandidate(a, keys, l, candidates, picked, id);
    }
  }

  ghost predicate HasId(keys: map<string, int>, l: Label, code: string, id: int) {
    StateKey(l.countryCode, code) in keys && keys[StateKey(l.countryCode, code)] == id
  }

  lemma SingletonMember(s: set<int>, x: int, y: int)
    requires |s| == 1 && x in s && y in s
    ensures x == y
  {
    assert s == {x} + (s - {x});
    assert s - {x} == {} || |s - {x}| > 0;
  }

  lemma SingleCandidate(a: Atlas, keys: map<string, int>, l: Label, candidates: set<int>, picked: int, id: int)
    requires CodesOf(a, l) != {} && picked in candidates
    requires forall code :: code in CodesOf(a, l) ==>
               StateKey(l.countryCode, code) in keys && keys[StateKey(l.countryCode, code)] in candidates
    requires forall i :: i in candidates ==> i != 0 && exists code :: code in CodesOf(a, l) && HasId(keys, l, code, i)
    ensures |candidates| == 1 && picked == id <==> VotesFor(a, keys, l, id)
  {
    hide CodesOf;
    if VotesFor(a, keys, l, id) {
      assert candidates == {id} by {
        forall i | i in candidates
          ensures i == id
        {
          var code :| code in CodesOf(a, l) && HasId(keys, l, code, i);
        }
      }
    }
    if |candidates| == 1 && picked == id {
      forall code | code in CodesOf(a, l)
        ensures keys[StateKey(l.countryCode, code)] == id
      {
        SingletonMember(candidates, picked, keys[StateKey(l.countryCode, code)]);
      }
    }
  }

  // ---------------------------------------------------------------------------------
  // Counting

  ghost function VoteCount(a: Atlas, keys: map<string, int>, group: seq<Label>, id: int): nat {
    if group == [] then 0
    else VoteCount(a, keys, group[..|group| - 1], id) + if VotesFor(a, keys, group[|group| - 1], id) then 1 else 0
  }

  /** More than half of the whole group votes for id, silent cities included in the total. */
  ghost predicate Majority(a: Atlas, keys: map<string, int>, group: seq<Label>, id: int) {
    |group| < 2 * VoteCount(a, keys, group, id)
  }

  lemma {:induction false} TwoCounts(a: Atlas, keys: map<string, int>, group: seq<Label>, id: int, id': int)
    requires id != id'
    ensures VoteCount(a, keys, group, id) + VoteCount(a, keys, group, id') <= |group|
  {
    if group != [] {
      hide VotesFor;
      TwoCounts(a, keys, group[..|group| - 1], id, id');
      var l := group[|group| - 1];
      if VotesFor(a, keys, l, id) && VotesFor(a, keys, l, id') {
        OneVoteEach(a, keys, l, id, id');
      }
    }
  }

  /** At most one state has the majority. */
  lemma MajorityUnique(a: Atlas, keys: map<string, int>, group: seq<Label>, id: int, id': int)
    requires Majority(a, keys, group, id) && Majority(a, keys, group, id')
    ensures id == id'
  {
    if id != id' {
      TwoCounts(a, keys, group, id, id');
    }
  }

  /** The state with the majority, if any. */
  ghost function MajorityOf(a: Atlas, keys: map<string, int>, group: seq<Label>): (r: Option<int>)
    ensures r.Some? ==> Majority(a, keys, group, r.value)
  {
    if id :| Majority(a, keys, group, id) then Some(id) else None
  }

  lemma MajorityOfIs(a: Atlas, keys: map<string, int>, group: seq<Label>, winner: Option<int>)
    requires forall id :: winner == Some(id) <==> Majority(a, keys, group, id)
    ensures winner == MajorityOf(a, keys, group)
  {
    hide Majority;
    if winner.Some? {
      assert Majority(a, keys, group, winner.value);
    }
  }

  lemma {:induction false} CountConcat(a: Atlas, keys: map<string, int>, g: seq<Label>, h: seq<Label>, id: int)
    ensures VoteCount(a, keys, g + h, id) == VoteCount(a, keys, g, id) + VoteCount(a, keys, h, id)
  {
    hide VotesFor;
    if h == [] {
      assert g + h == g;
    } else {
      var n := |h| - 1;
      CountConcat(a, keys, g, h[..n], id);
      assert (g + h)[..|g + h| - 1] == g + h[..n];
    }
  }

  lemma CountWithout(a: Atlas, keys: map<string, int>, group: seq<Label>, i: nat, id: int)
    requires i < |group|
    ensures VoteCount(a, keys, group, id) ==
            VoteCount(a, keys, group[..i] + group[i + 1..], id) + if VotesFor(a, keys, group[i], id) then 1 else 0
  {
    hide VotesFor;
    var g, one, h := group[..i], [group[i]], group[i + 1..];
    assert group == g + one + h && one[..0] == [];
    CountConcat(a, keys, g + one, h, id);
    CountConcat(a, keys, g, one, id);
    CountConcat(a, keys, g, h, id);
  }

  lemma {:induction false} CountAnyOrder(a: Atlas, keys: map<string, int>, group: seq<Label>, group': seq<Label>, id: int)
    requires multiset(group) == multiset(group')
    ensures VoteCount(a, keys, group, id) == VoteCount(a, keys, group', id)
    decreases |group|
  {
    hide VotesFor;
    if group == [] {
      assert |multiset(group')| == 0;
    } else {
      var n := |group| - 1;
      var i := TakeOut(group, group');
      CountWithout(a, keys, group', i, id);
      CountAnyOrder(a, keys, group[..n], group'[..i] + group'[i + 1..], id);
    }
  }

  lemma TakeOut<T(!new)>(group: seq<T>, group': seq<T>) returns (i: nat)
    requires group != [] && multiset(group) == multiset(group')
    ensures i < |group'| && group'[i] == group[|group| - 1]
    ensures multiset(group[..|group| - 1]) == multiset(group'[..i] + group'[i + 1..])
  {
    var n := |group| - 1;
    var x := group[n];
    assert group == group[..n] + [x];
    assert x in multiset(group');
    i :| 0 <= i < |group'| && group'[i] == x;
    Ranking.AllButOne(group', i);
    assert multiset(group[..n]) == multiset(group) - multiset{x};
    assert multiset(group'[..i] + group'[i + 1..]) == multiset(group') - multiset{x};
  }

  /** The winner does not depend on the order of the group's cities. */
  lemma MajorityAnyOrder(a: Atlas, keys: map<string, int>, group: seq<Label>, group': seq<Label>, id: int)
    requires multiset(group) == multiset(group')
    ensures Majority(a, keys, group, id) <==> Majority(a, keys, group', id)
  {
    CountAnyOrder(a, keys, group, group', id);
    assert |group| == |multiset(group)| && |group'| == |multiset(group')|;
  }

  datatype Tally = Tally(id: int, count: nat)

  function CountOf(t: Tally): real {
    t.count as real
  }

  method CountVotes(a: Atlas, keys: map<string, int>, group: seq<Label>) returns (votes: map<int, nat>, voted: seq<int>)
    ensures forall id :: (if id in votes then votes[id] else 0) == VoteCount(a, keys, group, id)
    ensures forall id :: id in votes ==> id in voted
    ensures forall i :: 0 <= i < |voted| ==> voted[i] in votes
  {
    hide VotesFor;
    votes, voted := map[], [];
    for i := 0 to |group|
      invariant forall id :: (if id in votes then votes[id] else 0) == VoteCount(a, keys, group[..i], id)
      invariant forall id :: id in votes ==> id in voted
      invariant forall k :: 0 <= k < |voted| ==> voted[k] in votes
    {
      assert group[..i + 1][..i] == group[..i];
      var vote := VoteByCityName(a, keys, group[i]);
      if vote.Some? {
        var id := vote.value;
        if id !in votes {
          voted := voted + [id];
        }
        votes := votes[id := 1 + if id in votes then votes[id] else 0];
      }
    }
    assert group[..|group|] == group;
  }

  function Tallies(votes: map<int, nat>, voted: seq<int>): (r: seq<Tally>)
    requires forall i :: 0 <= i < |voted| ==> voted[i] in votes
    ensures forall t :: t in r ==> t.id in votes && votes[t.id] == t.count
    ensures forall q :: q in voted ==> Tally(q, votes[q]) in r
  {
    if voted == [] then []
    else
      var n := |voted| - 1;
      Tallies(votes, voted[..n]) + [Tally(voted[n], votes[voted[n]])]
  }

  method MajorityVote(a: Atlas, keys: map<string, int>, group: seq<Label>) returns (winner: Option<int>)
    ensures winner == MajorityOf(a, keys, group)
    ensures forall id :: winner == Some(id) <==> Majority(a, keys, group, id)
  {
    hide VoteCount, Tallies, Majority, MajorityOf;
    var votes, voted := CountVotes(a, keys, group);
    var tallies := Tallies(votes, voted);
    var sorted := Ranking.SortDesc(tallies, CountOf);
    Ranking.SortFacts(tallies, CountOf);
    winner := None;
    if |sorted| > 0 && |group| < 2 * sorted[0].count {
      winner := Some(sorted[0].id);
    }
    forall id
      ensures winner == Some(id) <==> Majority(a, keys, group, id)
    {
      HeadIsMajority(a, keys, group, votes, tallies, sorted, id);
    }
    MajorityOfIs(a, keys, group, winner);
  }

  lemma HeadIsMajority(a: Atlas, keys: map<string, int>, group: seq<Label>, votes: map<int, nat>,
                       tallies: seq<Tally>, sorted: seq<Tally>, id: int)
    requires forall q :: (if q in votes then votes[q] else 0) == VoteCount(a, keys, group, q)
    requires forall t :: t in tallies ==> t.id in votes && votes[t.id] == t.count
    requires forall q :: q in votes ==> Tally(q, votes[q]) in tallies
    requires multiset(sorted) == multiset(tallies) && Ranking.Descending(sorted, CountOf)
    ensures Majority(a, keys, group, id) <==> |sorted| > 0 && |group| < 2 * sorted[0].count && sorted[0].id == id
  {
    hide VoteCount;
    forall t
      ensures t in sorted <==> t in tallies
    {
      assert t in sorted <==> t in multiset(sorted);
      assert t in tallies <==> t in multiset(tallies);
    }
    if Majority(a, keys, group, id) {
      var mine := Tally(id, votes[id]);
      var i :| 0 <= i < |sorted| && sorted[i] == mine;
      assert CountOf(sorted[0]) >= CountOf(mine);
      assert sorted[0] in tallies;
      MajorityUnique(a, keys, group, id, sorted[0].id);
    }
    if |sorted| > 0 {
      assert sorted[0] in tallies;
    }
  }
}

/** The loops of the city phase, each proved to compute the function that specifies it. */
module GeoResolving {
  import opened Outcomes
  import opened GeoData
  import opened GeoVotes
  import opened GeoAssign
  import opened GeoResolve
  import opened Sets

  /** The states by key, a later state replacing an earlier one. */
  function StateKeys(places: seq<Place>, iso: map<int, string>, n: nat): map<string, int>
    requires n <= |places|
  {
    if n == 0 then map[]
    else
      var before, p := StateKeys(places, iso, n - 1), places[n - 1];
      if p.id in iso && iso[p.id] != "" then before[StateKey(p.countryCode, iso[p.id]) := p.id] else before
  }

  method IndexStates(places: seq<Place>, iso: map<int, string>) returns (keys: map<string, int>)
    ensures keys == StateKeys(places, iso, |places|)
  {
    keys := map[];
    for i := 0 to |places|
      invariant keys == StateKeys(places, iso, i)
    {
      var p := places[i];
      if p.id in iso && iso[p.id] != "" {
        keys := keys[StateKey(p.countryCode, iso[p.id]) := p.id];
      }
    }
  }

  method Choose(w: World, stage: Stage, st: Claims, k: string, group: seq<Label>) returns (choice: Option<int>)
    requires group == GroupOf(w, k) != []
    ensures choice == Choice(w, stage, st, k)
  {
    hide Members, MajorityOf, Majority, NamedAfter, StateCodeGuess;
    match stage
    case StateCode =>
      var guess := StateCodeGuess(w, k, group[0]);
      choice := if guess.Some? && guess.value != 0 then guess else None;
    case GroupVote =>
      choice := None;
      if k !in st.byGroup {
        choice := MajorityVote(w.atlas, w.keys, group);
      }
    case CapitalName(rule) =>
      choice := None;
      if k !in st.byGroup {
        var candidates := NamedAfter(w.atlas, rule, PlacesOf(w, group[0].countryCode), group, st.claimed);
        if 1 == |candidates| {
          choice := Some(candidates[0].id);
        }
      }
  }

  /** The picks among the first n groups. */
  ghost predicate PicksAmong(w: World, stage: Stage, st: Claims, order: seq<string>, n: nat, picks: map<string, int>, picked: seq<string>)
    requires n <= |order|
  {
    && (forall k :: k in picks <==> k in order[..n] && Chooses(w, stage, st, k))
    && (forall k :: k in picks ==> picks[k] == Choice(w, stage, st, k).value)
    && OrderOf(picked, picks)
  }

  method CollectPicks(w: World, stage: Stage, st: Claims, order: seq<string>, groups: map<string, seq<Label>>)
    returns (picks: map<string, int>, picked: seq<string>)
    requires Grouped(w.labels, GroupKey, order, groups)
    ensures picks == Picks(w, stage, st) && OrderOf(picked, picks)
  {
    hide Members, FirstSeen, Choice, PicksAmong, Grouped, OrderOf, Picks;
    GroupFacts(w.labels, GroupKey, order, groups);
    picks, picked := map[], [];
    NoPicks(w, stage, st, order);
    for i := 0 to |order|
      invariant PicksAmong(w, stage, st, order, i, picks, picked)
    {
      var k := order[i];
      assert k in order && k in groups && groups[k] == GroupOf(w, k);
      var choice := Choose(w, stage, st, k, groups[k]);
      MorePicks(w, stage, st, order, i, picks, picked);
      if choice.Some? {
        picks := picks[k := choice.value];
        picked := picked + [k];
      }
    }
    AllPicks(w, stage, st, order, picks, picked);
  }

  lemma NoPicks(w: World, stage: Stage, st: Claims, order: seq<string>)
    ensures PicksAmong(w, stage, st, order, 0, map[], [])
  {
  }

  lemma MorePicks(w: World, stage: Stage, st: Claims, order: seq<string>, i: nat, picks: map<string, int>, picked: seq<string>)
    requires i < |order| && PicksAmong(w, stage, st, order, i, picks, picked) && GroupOf(w, order[i]) != []
    requires forall j, k :: 0 <= j < k < |order| ==> order[j] != order[k]
    ensures var choice := Choice(w, stage, st, order[i]);
            if choice.Some? then PicksAmong(w, stage, st, order, i + 1, picks[order[i] := choice.value], picked + [order[i]])
            else PicksAmong(w, stage, st, order, i + 1, picks, picked)
  {
    hide Choice, GroupOf;
    assert order[..i + 1] == order[..i] + [order[i]];
    assert order[i] !in order[..i];
  }

  lemma AllPicks(w: World, stage: Stage, st: Claims, order: seq<string>, picks: map<string, int>, picked: seq<string>)
    requires order == FirstSeen(w.labels, GroupKey) && PicksAmong(w, stage, st, order, |order|, picks, picked)
    ensures picks == Picks(w, stage, st) && OrderOf(picked, picks)
  {
    hide Choice, GroupOf, FirstSeen;
    assert order[..|order|] == order;
  }

  method RunStage(w: World, stage: Stage, st: Claims, order: seq<string>, groups: map<string, seq<Label>>) returns (r: Claims)
    requires Grouped(w.labels, GroupKey, order, groups)
    ensures r == Apply(w, stage, st)
  {
    hide Members, FirstSeen, Choice, Grouped, Assigned;
    var picks, picked := CollectPicks(w, stage, st, order, groups);
    GroupFacts(w.labels, GroupKey, order, groups);
    r := Assign(w.labels, groups, st, picks, picked, stage);
  }

  method ResolveGroups(w: World) returns (r: Claims)
    ensures r == Resolve(w)
  {
    hide Apply, Ids, Grouped;
    var order, groups := GroupBy(w.labels, GroupKey);
    r := RunStage(w, StateCode, NoClaims, order, groups);
    r := RunStage(w, GroupVote, r, order, groups);
    ghost var start := r;
    var more := true;
    while more
      invariant Rounds(w, start) == if more then Rounds(w, r) else r
      decreases |Ids(w) - r.claimed|, more
    {
      ghost var st := r;
      var claimedBefore := |r.claimed|;
      r := RunStage(w, CapitalName(Words), r, order, groups);
      r := RunStage(w, CapitalName(Prefix), r, order, groups);
      more := |r.claimed| > claimedBefore;
      if more {
        MoreClaimed(w, st);
      } else {
        RoundClaims(w, st);
        SubsetSize(st.claimed, r.claimed);
      }
    }
  }
}

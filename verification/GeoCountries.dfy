/** Every city group is given a state of its own country, provided no country code contains
    the separator of the group keys. */
module GeoCountries {
  import opened Outcomes
  import opened GeoData
  import opened GeoVotes
  import opened GeoAssign
  import opened GeoResolve

  ghost predicate NoBars(w: World) {
    && (forall p :: p in w.places ==> '|' !in p.countryCode)
    && (forall l :: l in w.labels ==> '|' !in l.countryCode)
  }

  lemma BarInside(x: string, y: string, x': string, y': string)
    requires StateKey(x, y) == StateKey(x', y') && |x| < |x'|
    ensures '|' in x'
  {
    assert x'[|x|] == StateKey(x', y')[|x|] == StateKey(x, y)[|x|];
  }

  /** A key determines its country and its code. */
  lemma BarSplit(x: string, y: string, x': string, y': string)
    requires '|' !in x && '|' !in x' && StateKey(x, y) == StateKey(x', y')
    ensures x == x' && y == y'
  {
    if |x| < |x'| {
      BarInside(x, y, x', y');
    } else if |x'| < |x| {
      BarInside(x', y', x, y);
    } else {
      var k := StateKey(x, y);
      assert x == k[..|x|] && x' == k[..|x|];
      assert y == k[|x| + 1..] && y' == k[|x| + 1..];
    }
  }

  /** Some state of this country has this id. */
  ghost predicate StateIn(w: World, cc: string, id: int) {
    exists p :: p in w.places && p.countryCode == cc && p.id == id
  }

  /** A state is filed only under keys of its own country. */
  ghost predicate KeysOwn(w: World) {
    forall k :: k in w.keys ==> exists p, code :: p in w.places && p.id == w.keys[k] && k == StateKey(p.countryCode, code)
  }

  lemma KeyedState(w: World, cc: string, code: string)
    requires KeysOwn(w) && NoBars(w) && '|' !in cc && StateKey(cc, code) in w.keys
    ensures StateIn(w, cc, w.keys[StateKey(cc, code)])
  {
    var k := StateKey(cc, code);
    var p, c :| p in w.places && p.id == w.keys[k] && k == StateKey(p.countryCode, c);
    BarSplit(cc, code, p.countryCode, c);
  }

  lemma SameCountry(w: World, k: string, l: Label, l': Label)
    requires NoBars(w) && l in GroupOf(w, k) && l' in GroupOf(w, k)
    ensures l.countryCode == l'.countryCode
  {
    BarSplit(l.countryCode, l.stateCode, l'.countryCode, l'.stateCode);
  }

  lemma {:induction false} SomeVoter(a: Atlas, keys: map<string, int>, group: seq<Label>, id: int) returns (l: Label)
    requires VoteCount(a, keys, group, id) > 0
    ensures l in group && VotesFor(a, keys, l, id)
  {
    hide VotesFor;
    l := group[|group| - 1];
    if !VotesFor(a, keys, l, id) {
      l := SomeVoter(a, keys, group[..|group| - 1], id);
    }
  }

  lemma GuessOwn(w: World, k: string, l: Label)
    requires KeysOwn(w) && NoBars(w) && l in GroupOf(w, k) && StateCodeGuess(w, k, l).Some?
    ensures StateIn(w, l.countryCode, StateCodeGuess(w, k, l).value)
  {
    hide KeysOwn, Members, FindNamed, StateIn;
    var padded := StateKey(l.countryCode, PadStart2(l.stateCode));
    if k in w.keys {
      KeyedState(w, l.countryCode, l.stateCode);
    } else if padded in w.keys {
      KeyedState(w, l.countryCode, PadStart2(l.stateCode));
    } else {
      NamedOwn(w, l.countryCode, w.atlas.normalize(AliasOf(l.countryCode, l.stateCode)));
    }
  }

  lemma NamedOwn(w: World, cc: string, name: string)
    ensures var r := FindNamed(PlacesOf(w, cc), w.atlas.normalize, name); r.Some? ==> StateIn(w, cc, r.value)
  {
    hide Members;
  }

  lemma VoteOwn(w: World, k: string, id: int)
    requires KeysOwn(w) && NoBars(w) && GroupOf(w, k) != [] && Majority(w.atlas, w.keys, GroupOf(w, k), id)
    ensures StateIn(w, GroupOf(w, k)[0].countryCode, id)
  {
    hide KeysOwn, Members, CodesOf;
    var group := GroupOf(w, k);
    var l := SomeVoter(w.atlas, w.keys, group, id);
    var code :| code in CodesOf(w.atlas, l);
    KeyedState(w, l.countryCode, code);
    SameCountry(w, k, l, group[0]);
  }

  lemma ChoiceOwn(w: World, stage: Stage, st: Claims, k: string)
    requires KeysOwn(w) && NoBars(w) && Chooses(w, stage, st, k)
    ensures StateIn(w, GroupOf(w, k)[0].countryCode, Choice(w, stage, st, k).value)
  {
    hide KeysOwn, NoBars, Members, MajorityOf, Majority, StateCodeGuess, NamedAfter, StateIn;
    var group := GroupOf(w, k);
    match stage {
      case StateCode => GuessOwn(w, k, group[0]);
      case GroupVote => VoteOwn(w, k, Choice(w, stage, st, k).value);
      case CapitalName(rule) => CandidateOwn(w, rule, group, group[0].countryCode, st.claimed);
    }
  }

  lemma CandidateOwn(w: World, rule: Rule, group: seq<Label>, cc: string, claimed: set<int>)
    ensures var cs := NamedAfter(w.atlas, rule, PlacesOf(w, cc), group, claimed);
            |cs| > 0 ==> StateIn(w, cc, cs[0].id)
  {
    hide Members, NamedAfter;
    var cs := NamedAfter(w.atlas, rule, PlacesOf(w, cc), group, claimed);
    if |cs| > 0 {
      assert cs[0] in cs;
    }
  }

  // ---------------------------------------------------------------------------------
  // Every assignment is some stage's choice

  ghost predicate IsChoice(w: World, k: string, id: int) {
    exists stage, st :: Chooses(w, stage, st, k) && Choice(w, stage, st, k).value == id
  }

  ghost predicate AllChosen(w: World, st: Claims) {
    forall k :: k in st.byGroup ==> IsChoice(w, k, st.byGroup[k])
  }

  lemma StageChosen(w: World, stage: Stage, st: Claims)
    requires AllChosen(w, st)
    ensures AllChosen(w, Apply(w, stage, st))
  {
    hide GroupOf, Choice, CountIn, Credit, FirstSeen;
    var picks := Picks(w, stage, st);
    forall k | k in picks
      ensures IsChoice(w, k, picks[k])
    {
      assert Chooses(w, stage, st, k) && Choice(w, stage, st, k).value == picks[k];
    }
  }

  lemma {:induction false} RoundsChosen(w: World, st: Claims)
    requires AllChosen(w, st)
    ensures AllChosen(w, Rounds(w, st))
    decreases |Ids(w) - st.claimed|
  {
    hide AllChosen, Apply, Ids;
    StageChosen(w, CapitalName(Words), st);
    StageChosen(w, CapitalName(Prefix), Apply(w, CapitalName(Words), st));
    if |Round(w, st).claimed| > |st.claimed| {
      MoreClaimed(w, st);
      RoundsChosen(w, Round(w, st));
    }
  }

  lemma ResolveChosen(w: World, k: string)
    ensures k in Resolve(w).byGroup ==> IsChoice(w, k, Resolve(w).byGroup[k])
  {
    hide Apply, Rounds, IsChoice;
    StageChosen(w, StateCode, NoClaims);
    StageChosen(w, GroupVote, Apply(w, StateCode, NoClaims));
    RoundsChosen(w, Apply(w, GroupVote, Apply(w, StateCode, NoClaims)));
  }

  lemma ChosenOwn(w: World, k: string, l: Label, id: int)
    requires KeysOwn(w) && NoBars(w) && l in GroupOf(w, k) && IsChoice(w, k, id)
    ensures StateIn(w, l.countryCode, id)
  {
    hide KeysOwn, NoBars, StateIn, Members, Choice;
    var stage, st :| Chooses(w, stage, st, k) && Choice(w, stage, st, k).value == id;
    ChoiceOwn(w, stage, st, k);
    SameCountry(w, k, l, GroupOf(w, k)[0]);
  }

  /** Every resolved city is given a state of its own country. */
  lemma ResolveOwn(w: World, l: Label)
    requires KeysOwn(w) && NoBars(w) && l in w.labels
    ensures GroupKey(l) in Resolve(w).byGroup ==> StateIn(w, l.countryCode, Resolve(w).byGroup[GroupKey(l)])
  {
    hide KeysOwn, NoBars, Resolve, StateIn, Members, IsChoice;
    ResolveChosen(w, GroupKey(l));
    if GroupKey(l) in Resolve(w).byGroup {
      ChosenOwn(w, GroupKey(l), l, Resolve(w).byGroup[GroupKey(l)]);
    }
  }

  /** No group is given the id 0, unless a state has it. */
  lemma ChoiceNonzero(w: World, stage: Stage, st: Claims, k: string)
    requires 0 !in Ids(w) && Chooses(w, stage, st, k)
    ensures Choice(w, stage, st, k).value != 0
  {
    hide Members, MajorityOf, NamedAfter, StateCodeGuess;
    var group := GroupOf(w, k);
    if stage.GroupVote? {
      var l := SomeVoter(w.atlas, w.keys, group, Choice(w, stage, st, k).value);
    } else if stage.CapitalName? {
      var cs := NamedAfter(w.atlas, stage.rule, PlacesOf(w, group[0].countryCode), group, st.claimed);
      assert cs[0] in cs && cs[0].id in Ids(w);
    }
  }

  lemma ResolveNonzero(w: World, k: string)
    requires 0 !in Ids(w)
    ensures k in Resolve(w).byGroup ==> Resolve(w).byGroup[k] != 0
  {
    hide Ids, Resolve, Choice;
    ResolveChosen(w, k);
    if k in Resolve(w).byGroup {
      var stage, st :| Chooses(w, stage, st, k) && Choice(w, stage, st, k).value == Resolve(w).byGroup[k];
      ChoiceNonzero(w, stage, st, k);
    }
  }
}

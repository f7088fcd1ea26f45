/** Which state every city group is given, stage by stage, in terms of the rows, the package
    and the names themselves. */
module GeoOutcome {
  import opened Outcomes
  import opened GeoData
  import opened GeoVotes
  import opened GeoAssign
  import opened GeoResolve
  import opened GeoShuffle

  // ---------------------------------------------------------------------------------
  // What each stage finds for a group

  ghost predicate FiledUnder(w: World, key: string, id: int) {
    key in w.keys && w.keys[key] == id
  }

  /** The state that comes first among those of a country with this normalised name. */
  ghost predicate FirstNamed(places: seq<Place>, normalize: string -> string, cc: string, name: string, id: int) {
    exists i :: 0 <= i < |places| && FirstAt(places, normalize, cc, name, i) && places[i].id == id
  }

  ghost predicate FirstAt(places: seq<Place>, normalize: string -> string, cc: string, name: string, i: nat)
    requires i < |places|
  {
    && places[i].countryCode == cc && normalize(places[i].name) == name
    && forall j :: 0 <= j < i && places[j].countryCode == cc ==> normalize(places[j].name) != name
  }

  /** The state that a group's code stands for: the one filed under the code, else under the
      code filled up with zeros to two digits, else the one with the code's legacy name. */
  ghost predicate CodeStandsFor(w: World, cc: string, code: string, id: int) {
    if cc + "|" + code in w.keys then FiledUnder(w, cc + "|" + code, id)
    else if code == "" && cc + "|00" in w.keys then FiledUnder(w, cc + "|00", id)
    else if |code| == 1 && cc + "|0" + code in w.keys then FiledUnder(w, cc + "|0" + code, id)
    else
      && AliasOf(cc, code) != ""
      && FirstNamed(w.places, w.atlas.normalize, cc, w.atlas.normalize(AliasOf(cc, code)), id)
  }

  /** The package lists cities of this name, and files all of them under this state. */
  ghost predicate CityPointsTo(w: World, l: Label, id: int) {
    var cities, normalize := w.atlas.citiesOf(l.countryCode), w.atlas.normalize;
    && id != 0
    && (exists c :: c in cities && normalize(c.name) == normalize(l.name))
    && (forall c :: c in cities && normalize(c.name) == normalize(l.name) ==> FiledUnder(w, l.countryCode + "|" + c.stateCode, id))
  }

  ghost function Pointing(w: World, group: seq<Label>, id: int): set<nat> {
    set i: nat | i < |group| && CityPointsTo(w, group[i], id)
  }

  /** A city of the group has the state's name up to word order, or begins with it. */
  ghost predicate CapitalOf(w: World, rule: Rule, group: seq<Label>, p: Place) {
    exists l :: l in group &&
      match rule
      case Words => w.atlas.wordKey(l.name) == w.atlas.wordKey(p.name)
      case Prefix => w.atlas.normalize(p.name) + " " <= w.atlas.normalize(l.name)
  }

  ghost predicate Unclaimed(w: World, claimed: set<int>, cc: string, p: Place) {
    p in w.places && p.countryCode == cc && p.id !in claimed
  }

  /** The state a stage finds for a group, given the states claimed so far. */
  ghost predicate Finds(w: World, stage: Stage, claimed: set<int>, k: string, id: int) {
    var group := GroupOf(w, k);
    && group != []
    && var cc := group[0].countryCode;
       match stage
       case StateCode => id != 0 && CodeStandsFor(w, cc, group[0].stateCode, id)
       case GroupVote => 2 * |Pointing(w, group, id)| > |group|
       case CapitalName(rule) =>
         exists p: Place :: && p.id == id && multiset(w.places)[p] == 1
                     && Unclaimed(w, claimed, cc, p) && CapitalOf(w, rule, group, p)
                     && forall q :: Unclaimed(w, claimed, cc, q) && CapitalOf(w, rule, group, q) ==> q == p
  }

  // ---------------------------------------------------------------------------------
  // Stage 1: codes

  lemma {:induction false} FindConcat(ps: seq<Place>, p: Place, normalize: string -> string, name: string)
    ensures FindNamed(ps + [p], normalize, name) ==
            if FindNamed(ps, normalize, name).Some? then FindNamed(ps, normalize, name)
            else if normalize(p.name) == name then Some(p.id) else None
  {
    if ps == [] {
      assert ps + [p] == [p] && [p][1..] == [];
    } else {
      FindConcat(ps[1..], p, normalize, name);
      assert (ps + [p])[1..] == ps[1..] + [p];
    }
  }

  lemma FirstMore(ps: seq<Place>, p: Place, normalize: string -> string, cc: string, name: string, id: int)
    ensures FirstNamed(ps + [p], normalize, cc, name, id) <==>
            FirstNamed(ps, normalize, cc, name, id)
            || (p.countryCode == cc && normalize(p.name) == name && p.id == id
                && forall j :: 0 <= j < |ps| && ps[j].countryCode == cc ==> normalize(ps[j].name) != name)
  {
    var more := ps + [p];
    forall i | 0 <= i < |ps|
      ensures FirstAt(more, normalize, cc, name, i) <==> FirstAt(ps, normalize, cc, name, i)
    {
      assert forall j :: 0 <= j <= i ==> more[j] == ps[j];
    }
    assert FirstAt(more, normalize, cc, name, |ps|) <==>
             p.countryCode == cc && normalize(p.name) == name
             && forall j :: 0 <= j < |ps| && ps[j].countryCode == cc ==> normalize(ps[j].name) != name by {
      assert forall j :: 0 <= j < |ps| ==> more[j] == ps[j];
    }
    if FirstNamed(ps, normalize, cc, name, id) {
      var i :| 0 <= i < |ps| && FirstAt(ps, normalize, cc, name, i) && ps[i].id == id;
      assert FirstAt(more, normalize, cc, name, i) && more[i].id == id;
    }
  }

  lemma {:induction false} FoundIsFirst(ps: seq<Place>, normalize: string -> string, cc: string, name: string)
    ensures var r := FindNamed(Members(ps, PlaceCountry, cc), normalize, name);
            && (r.None? <==> forall j :: 0 <= j < |ps| && ps[j].countryCode == cc ==> normalize(ps[j].name) != name)
            && forall id :: r == Some(id) <==> FirstNamed(ps, normalize, cc, name, id)
  {
    hide FindNamed, FirstNamed;
    if ps == [] {
      NobodyNamed(normalize, cc, name);
    } else {
      var n := |ps| - 1;
      assert ps == ps[..n] + [ps[n]];
      FoundIsFirst(ps[..n], normalize, cc, name);
      FindConcat(Members(ps[..n], PlaceCountry, cc), ps[n], normalize, name);
      assert Members(ps[..n], PlaceCountry, cc) + [] == Members(ps[..n], PlaceCountry, cc);
      forall id: int
        ensures FirstNamed(ps, normalize, cc, name, id) <==>
                FirstNamed(ps[..n], normalize, cc, name, id)
                || (ps[n].countryCode == cc && normalize(ps[n].name) == name && ps[n].id == id
                    && forall j :: 0 <= j < n && ps[..n][j].countryCode == cc ==> normalize(ps[..n][j].name) != name)
      {
        FirstMore(ps[..n], ps[n], normalize, cc, name, id);
      }
    }
  }

  lemma NobodyNamed(normalize: string -> string, cc: string, name: string)
    ensures FindNamed(Members([], PlaceCountry, cc), normalize, name) == None
    ensures forall id :: !FirstNamed([], normalize, cc, name, id)
  {
  }

  lemma Keys(cc: string, code: string)
    ensures StateKey(cc, code) == cc + "|" + code
    ensures StateKey(cc, PadStart2(code)) ==
            if code == "" then cc + "|00" else if |code| == 1 then cc + "|0" + code else cc + "|" + code
  {
    assert cc + "|" + "00" == cc + "|00";
    assert cc + "|" + ("0" + code) == cc + "|0" + code;
  }

  lemma GuessIs(w: World, l: Label, id: int)
    ensures StateCodeGuess(w, GroupKey(l), l) == Some(id) <==> CodeStandsFor(w, l.countryCode, l.stateCode, id)
  {
    hide FindNamed, Members, FirstNamed, PadStart2, AliasOf;
    Keys(l.countryCode, l.stateCode);
    FoundIsFirst(w.places, w.atlas.normalize, l.countryCode, w.atlas.normalize(AliasOf(l.countryCode, l.stateCode)));
  }

  // ---------------------------------------------------------------------------------
  // Stage 2: votes

  lemma VoteIs(w: World, l: Label, id: int)
    ensures VotesFor(w.atlas, w.keys, l, id) <==> CityPointsTo(w, l, id)
  {
    var cities, normalize := w.atlas.citiesOf(l.countryCode), w.atlas.normalize;
    forall c | c in cities && normalize(c.name) == normalize(l.name)
      ensures c.stateCode in CodesOf(w.atlas, l)
    {
    }
    forall code | code in CodesOf(w.atlas, l)
      ensures exists c :: c in cities && normalize(c.name) == normalize(l.name) && c.stateCode == code
    {
    }
    forall code: string
      ensures StateKey(l.countryCode, code) == l.countryCode + "|" + code
    {
    }
    if VotesFor(w.atlas, w.keys, l, id) {
      var code :| code in CodesOf(w.atlas, l);
    }
  }

  lemma {:induction false} CountIs(w: World, group: seq<Label>, id: int)
    ensures VoteCount(w.atlas, w.keys, group, id) == |Pointing(w, group, id)|
  {
    hide VotesFor, CityPointsTo;
    if group != [] {
      var n := |group| - 1;
      CountIs(w, group[..n], id);
      VoteIs(w, group[n], id);
      assert Pointing(w, group, id) == Pointing(w, group[..n], id) + if CityPointsTo(w, group[n], id) then {n} else {};
    }
  }

  lemma MajorityIs(w: World, group: seq<Label>, id: int)
    ensures MajorityOf(w.atlas, w.keys, group) == Some(id) <==> 2 * |Pointing(w, group, id)| > |group|
  {
    hide VoteCount;
    CountIs(w, group, id);
    if Majority(w.atlas, w.keys, group, id) {
      assert forall j :: Majority(w.atlas, w.keys, group, j) ==> j == id by { OneMajority(w, group, id); }
    }
  }

  lemma OneMajority(w: World, group: seq<Label>, id: int)
    requires Majority(w.atlas, w.keys, group, id)
    ensures forall j :: Majority(w.atlas, w.keys, group, j) ==> j == id
  {
    forall j | Majority(w.atlas, w.keys, group, j)
      ensures j == id
    {
      MajorityUnique(w.atlas, w.keys, group, id, j);
    }
  }

  // ---------------------------------------------------------------------------------
  // Stage 3: capitals

  lemma NamedCount(w: World, rule: Rule, cc: string, group: seq<Label>, claimed: set<int>, p: Place)
    ensures var cs := NamedAfter(w.atlas, rule, PlacesOf(w, cc), group, claimed);
            && multiset(cs)[p] == (if Unclaimed(w, claimed, cc, p) && CapitalOf(w, rule, group, p) then multiset(w.places)[p] else 0)
            && (p in cs <==> Unclaimed(w, claimed, cc, p) && CapitalOf(w, rule, group, p))
  {
    hide NamedAfter, Members;
    NamedAfterCount(w.atlas, rule, PlacesOf(w, cc), group, claimed, p);
    MembersCount(w.places, PlaceCountry, cc, p);
    InCount(w.places, p);
    InCount(NamedAfter(w.atlas, rule, PlacesOf(w, cc), group, claimed), p);
  }

  lemma SoleCapital(w: World, rule: Rule, cc: string, group: seq<Label>, claimed: set<int>, p: Place)
    ensures NamedAfter(w.atlas, rule, PlacesOf(w, cc), group, claimed) == [p] <==>
            && multiset(w.places)[p] == 1 && Unclaimed(w, claimed, cc, p) && CapitalOf(w, rule, group, p)
            && forall q :: Unclaimed(w, claimed, cc, q) && CapitalOf(w, rule, group, q) ==> q == p
  {
    hide NamedAfter, Unclaimed, CapitalOf, Members;
    var cs := NamedAfter(w.atlas, rule, PlacesOf(w, cc), group, claimed);
    SoleItem(cs, p);
    forall q: Place
      ensures q in cs <==> Unclaimed(w, claimed, cc, q) && CapitalOf(w, rule, group, q)
    {
      NamedCount(w, rule, cc, group, claimed, q);
    }
    NamedCount(w, rule, cc, group, claimed, p);
  }

  // ---------------------------------------------------------------------------------
  // One stage

  lemma ChoiceIs(w: World, stage: Stage, st: Claims, k: string, id: int)
    requires stage.StateCode? || k !in st.byGroup
    ensures Chooses(w, stage, st, k) && Choice(w, stage, st, k) == Some(id) <==> Finds(w, stage, st.claimed, k, id)
  {
    hide Members, NamedAfter, MajorityOf, StateCodeGuess, CodeStandsFor, Unclaimed, CapitalOf, Pointing;
    if GroupOf(w, k) != [] {
      var group := GroupOf(w, k);
      assert group[0] in group && GroupKey(group[0]) == k;
      match stage {
        case StateCode => GuessIs(w, group[0], id);
        case GroupVote => MajorityIs(w, group, id);
        case CapitalName(rule) => CapitalIs(w, rule, st.claimed, group, id);
      }
    }
  }

  lemma CapitalIs(w: World, rule: Rule, claimed: set<int>, group: seq<Label>, id: int)
    requires group != []
    ensures var cc := group[0].countryCode;
            var cs := NamedAfter(w.atlas, rule, PlacesOf(w, cc), group, claimed);
            |cs| == 1 && cs[0].id == id <==>
            exists p: Place :: && p.id == id && multiset(w.places)[p] == 1
                               && Unclaimed(w, claimed, cc, p) && CapitalOf(w, rule, group, p)
                               && forall q :: Unclaimed(w, claimed, cc, q) && CapitalOf(w, rule, group, q) ==> q == p
  {
    hide Members, NamedAfter, Unclaimed, CapitalOf;
    var cc := group[0].countryCode;
    var cs := NamedAfter(w.atlas, rule, PlacesOf(w, cc), group, claimed);
    forall p: Place
      ensures cs == [p] <==>
              && multiset(w.places)[p] == 1 && Unclaimed(w, claimed, cc, p) && CapitalOf(w, rule, group, p)
              && forall q :: Unclaimed(w, claimed, cc, q) && CapitalOf(w, rule, group, q) ==> q == p
    {
      SoleCapital(w, rule, cc, group, claimed, p);
    }
    if |cs| == 1 {
      assert cs == [cs[0]];
    }
  }

  /** Group k is given state id: the stage finds it for this group alone, and nobody has it. */
  ghost predicate Given(w: World, stage: Stage, before: Claims, k: string, id: int) {
    && k !in before.byGroup && id !in before.claimed && Finds(w, stage, before.claimed, k, id)
    && forall j :: j !in before.byGroup && Finds(w, stage, before.claimed, j, id) ==> j == k
  }

  predicate Has(st: Claims, k: string, id: int) {
    k in st.byGroup && st.byGroup[k] == id
  }

  ghost predicate NewGroup(before: Claims, after: Claims, l: Label) {
    && l.countryCode + "|" + l.stateCode in after.byGroup
    && l.countryCode + "|" + l.stateCode !in before.byGroup
  }

  /** What a stage does: exactly the given groups get their states, these states are claimed,
      and the stage is credited with the cities of these groups. */
  ghost predicate StageDecided(w: World, stage: Stage, before: Claims, after: Claims) {
    && (forall k, id :: Has(after, k, id) <==> Has(before, k, id) || Given(w, stage, before, k, id))
    && (forall id :: id in after.claimed <==> id in before.claimed || exists k :: Given(w, stage, before, k, id))
    && var count := |set i: nat | i < |w.labels| && NewGroup(before, after, w.labels[i])|;
       && after.stateCode == before.stateCode + (if stage == StateCode then count else 0)
       && after.groupVote == before.groupVote + (if stage == GroupVote then count else 0)
       && after.capitalName == before.capitalName + (if stage.CapitalName? then count else 0)
  }

  lemma SeenGroups(w: World, k: string)
    ensures k in FirstSeen(w.labels, GroupKey) <==> GroupOf(w, k) != []
  {
    if k in FirstSeen(w.labels, GroupKey) {
      var l :| l in w.labels && GroupKey(l) == k;
      assert l in GroupOf(w, k);
    }
    if GroupOf(w, k) != [] {
      assert GroupOf(w, k)[0] in GroupOf(w, k);
    }
  }

  lemma PickIs(w: World, stage: Stage, st: Claims, k: string, id: int)
    requires stage.StateCode? ==> st == NoClaims
    ensures var picks := Picks(w, stage, st);
            k in picks && picks[k] == id <==> k !in st.byGroup && Finds(w, stage, st.claimed, k, id)
  {
    hide GroupOf, Finds, FirstSeen, MajorityOf, NamedAfter, StateCodeGuess;
    SeenGroups(w, k);
    if k !in st.byGroup {
      ChoiceIs(w, stage, st, k, id);
    }
  }

  lemma WinnerIs(w: World, stage: Stage, st: Claims, k: string, id: int)
    requires stage.StateCode? ==> st == NoClaims
    ensures var picks := Picks(w, stage, st);
            k in Winners(picks, st.claimed) && picks[k] == id <==> Given(w, stage, st, k, id)
  {
    hide Picks, Finds;
    forall j: string
      ensures var picks := Picks(w, stage, st);
              j in picks && picks[j] == id <==> j !in st.byGroup && Finds(w, stage, st.claimed, j, id)
    {
      PickIs(w, stage, st, j, id);
    }
  }

  lemma {:induction false} CountInIs(labels: seq<Label>, ks: set<string>)
    ensures CountIn(labels, ks) == |set i: nat | i < |labels| && GroupKey(labels[i]) in ks|
  {
    hide GroupKey;
    if labels != [] {
      var n := |labels| - 1;
      CountInIs(labels[..n], ks);
      assert (set i: nat | i < |labels| && GroupKey(labels[i]) in ks) ==
             (set i: nat | i < n && GroupKey(labels[..n][i]) in ks) + if GroupKey(labels[n]) in ks then {n} else {};
    }
  }

  lemma GiveIs(labels: seq<Label>, st: Claims, picks: map<string, int>, ks: set<string>, stage: Stage)
    requires ks <= picks.Keys && forall k :: k in ks ==> k !in st.byGroup
    ensures var after := Give(labels, st, picks, ks, stage);
            && (forall k, id :: Has(after, k, id) <==> Has(st, k, id) || (k in ks && picks[k] == id))
            && (forall id :: id in after.claimed <==> id in st.claimed || exists k :: k in ks && picks[k] == id)
            && after.byGroup.Keys == st.byGroup.Keys + ks
            && after.stateCode == st.stateCode + (if stage == StateCode then CountIn(labels, ks) else 0)
            && after.groupVote == st.groupVote + (if stage == GroupVote then CountIn(labels, ks) else 0)
            && after.capitalName == st.capitalName + (if stage.CapitalName? then CountIn(labels, ks) else 0)
  {
    hide CountIn;
  }

  lemma CreditedCities(labels: seq<Label>, before: Claims, after: Claims, ks: set<string>)
    requires after.byGroup.Keys == before.byGroup.Keys + ks && forall k :: k in ks ==> k !in before.byGroup
    ensures CountIn(labels, ks) == |set i: nat | i < |labels| && NewGroup(before, after, labels[i])|
  {
    hide CountIn;
    CountInIs(labels, ks);
    assert forall l: Label :: GroupKey(l) == l.countryCode + "|" + l.stateCode;
    assert (set i: nat | i < |labels| && GroupKey(labels[i]) in ks) ==
           (set i: nat | i < |labels| && NewGroup(before, after, labels[i]));
  }

  lemma ApplyDecided(w: World, stage: Stage, st: Claims)
    requires stage.StateCode? ==> st == NoClaims
    ensures StageDecided(w, stage, st, Apply(w, stage, st))
  {
    hide Picks, Finds, CountIn, Winners, NewGroup;
    var picks := Picks(w, stage, st);
    var ks := Winners(picks, st.claimed);
    forall k, id
      ensures k in ks && k in picks && picks[k] == id <==> Given(w, stage, st, k, id)
    {
      WinnerIs(w, stage, st, k, id);
      WinnerPicked(picks, st.claimed, k);
    }
    assert forall k :: k in ks ==> k in picks && Given(w, stage, st, k, picks[k]) by {
      forall k | k in ks
        ensures k in picks
      {
        WinnerPicked(picks, st.claimed, k);
      }
    }
    hide Given;
    NewKeys(w, stage, st, picks, ks);
    GiveIs(w.labels, st, picks, ks, stage);
    CreditedCities(w.labels, st, Apply(w, stage, st), ks);
  }

  lemma WinnerPicked(picks: map<string, int>, claimed: set<int>, k: string)
    ensures k in Winners(picks, claimed) ==> k in picks
  {
  }

  lemma NewKeys(w: World, stage: Stage, st: Claims, picks: map<string, int>, ks: set<string>)
    requires forall k :: k in ks ==> k in picks && Given(w, stage, st, k, picks[k])
    ensures forall k :: k in ks ==> k !in st.byGroup
  {
  }

  // ---------------------------------------------------------------------------------
  // All stages

  /** Codes, then votes, then rounds of exact and prefix names. */
  function StageAt(i: nat): Stage {
    if i == 0 then StateCode else if i == 1 then GroupVote
    else if i % 2 == 0 then CapitalName(Words) else CapitalName(Prefix)
  }

  /** A sequence of assignments, stage after stage from stage i on. */
  ghost predicate Staged(w: World, i: nat, trace: seq<Claims>) {
    forall j :: 0 <= j < |trace| - 1 ==> StageDecided(w, StageAt(i + j), trace[j], trace[j + 1])
  }

  /** Rounds: each but the last claims more states, and the last none. */
  ghost predicate RoundsEnd(trace: seq<Claims>) {
    && |trace| >= 3 && |trace| % 2 == 1
    && forall r :: 0 <= r && 2 * r + 2 < |trace| ==>
         (2 * r + 3 == |trace| <==> |trace[2 * r + 2].claimed| <= |trace[2 * r].claimed|)
  }

  lemma StagedMore(w: World, i: nat, st: Claims, trace: seq<Claims>)
    requires trace != [] && StageDecided(w, StageAt(i), st, trace[0]) && Staged(w, i + 1, trace)
    ensures Staged(w, i, [st] + trace)
  {
    hide StageDecided, StageAt;
    var more := [st] + trace;
    forall j | 0 <= j < |more| - 1
      ensures StageDecided(w, StageAt(i + j), more[j], more[j + 1])
    {
      if j > 0 {
        assert more[j] == trace[j - 1] && more[j + 1] == trace[j];
        assert StageDecided(w, StageAt(i + 1 + (j - 1)), trace[j - 1], trace[j]);
      }
    }
  }

  lemma RoundsMore(st: Claims, mid: Claims, trace: seq<Claims>)
    requires RoundsEnd(trace) && |trace[0].claimed| > |st.claimed|
    ensures RoundsEnd([st, mid] + trace)
  {
    var more := [st, mid] + trace;
    forall r | 0 <= r && 2 * r + 2 < |more|
      ensures 2 * r + 3 == |more| <==> |more[2 * r + 2].claimed| <= |more[2 * r].claimed|
    {
      if r > 0 {
        assert more[2 * r + 2] == trace[2 * (r - 1) + 2] && more[2 * r] == trace[2 * (r - 1)];
      }
    }
  }

  lemma {:induction false} RoundsDecided(w: World, i: nat, st: Claims) returns (trace: seq<Claims>)
    requires i >= 2 && i % 2 == 0
    ensures RoundsEnd(trace) && Staged(w, i, trace) && trace[0] == st && trace[|trace| - 1] == Rounds(w, st)
    decreases |Ids(w) - st.claimed|
  {
    hide Apply, StageDecided, Ids, Staged, RoundsEnd;
    var mid := Apply(w, CapitalName(Words), st);
    var next := Apply(w, CapitalName(Prefix), mid);
    ApplyDecided(w, CapitalName(Words), st);
    ApplyDecided(w, CapitalName(Prefix), mid);
    RoundClaims(w, st);
    if |next.claimed| > |st.claimed| {
      MoreClaimed(w, st);
      var rest := RoundsDecided(w, i + 2, next);
      RowStart(rest);
      StagedMore(w, i + 1, mid, rest);
      StagedMore(w, i, st, [mid] + rest);
      RoundsMore(st, mid, rest);
      trace := [st, mid] + rest;
      assert [st] + ([mid] + rest) == trace;
    } else {
      trace := [st, mid, next];
      LastRound(w, i, st, mid, next);
    }
  }

  lemma RowStart(trace: seq<Claims>)
    requires RoundsEnd(trace)
    ensures trace != []
  {
  }

  lemma LastRound(w: World, i: nat, st: Claims, mid: Claims, next: Claims)
    requires StageDecided(w, StageAt(i), st, mid) && StageDecided(w, StageAt(i + 1), mid, next)
    requires |next.claimed| <= |st.claimed|
    ensures Staged(w, i, [st, mid, next]) && RoundsEnd([st, mid, next])
  {
    hide StageDecided, StageAt;
  }

  /** The assignment of states to groups, stage by stage, from nothing to the result: codes,
      votes, then rounds of exact and prefix names until a round claims nothing. */
  lemma ResolveDecided(w: World) returns (trace: seq<Claims>)
    ensures |trace| >= 5 && trace[0] == NoClaims && trace[|trace| - 1] == Resolve(w)
    ensures Staged(w, 0, trace) && RoundsEnd(trace[2..])
  {
    hide Apply, StageDecided, Staged, RoundsEnd, Rounds;
    var codes := Apply(w, StateCode, NoClaims);
    var votes := Apply(w, GroupVote, codes);
    ApplyDecided(w, StateCode, NoClaims);
    ApplyDecided(w, GroupVote, codes);
    var rest := RoundsDecided(w, 2, votes);
    RoundsLong(rest);
    StagedMore(w, 1, codes, rest);
    StagedMore(w, 0, NoClaims, [codes] + rest);
    trace := [NoClaims, codes] + rest;
    assert [NoClaims] + ([codes] + rest) == trace && trace[2..] == rest;
  }

  lemma RoundsLong(trace: seq<Claims>)
    requires RoundsEnd(trace)
    ensures |trace| >= 3
  {
  }

  /** A group is given the state its code stands for, if that is no other group's: the state
      filed under the code; failing that, a one-digit code filled up with a zero; failing both,
      the first state with the legacy name. */
  lemma CodeDecides(w: World, k: string, id: int)
    requires id != 0 && GroupOf(w, k) != [] && CodeStandsFor(w, GroupOf(w, k)[0].countryCode, GroupOf(w, k)[0].stateCode, id)
    requires forall j :: GroupOf(w, j) != [] && CodeStandsFor(w, GroupOf(w, j)[0].countryCode, GroupOf(w, j)[0].stateCode, id) ==> j == k
    ensures k in Resolve(w).byGroup && Resolve(w).byGroup[k] == id
  {
    hide CodeStandsFor, Apply, Resolve, GroupOf;
    ApplyDecided(w, StateCode, NoClaims);
    CodeGiven(w, k, id);
    ResolveKeeps(w);
    assert Has(Apply(w, StateCode, NoClaims), k, id);
  }

  lemma CodeGiven(w: World, k: string, id: int)
    requires id != 0 && GroupOf(w, k) != [] && CodeStandsFor(w, GroupOf(w, k)[0].countryCode, GroupOf(w, k)[0].stateCode, id)
    requires forall j :: GroupOf(w, j) != [] && CodeStandsFor(w, GroupOf(w, j)[0].countryCode, GroupOf(w, j)[0].stateCode, id) ==> j == k
    ensures Given(w, StateCode, NoClaims, k, id)
  {
    hide CodeStandsFor, GroupOf;
  }

  /** When all is done, no unresolved group has a sole unclaimed state named after one of its
      cities, unless another unresolved group has the same. */
  lemma NothingLeftToName(w: World, rule: Rule, k: string, id: int)
    requires k !in Resolve(w).byGroup && Finds(w, CapitalName(rule), Resolve(w).claimed, k, id)
    ensures exists j :: j != k && j !in Resolve(w).byGroup && Finds(w, CapitalName(rule), Resolve(w).claimed, j, id)
  {
    hide Apply, Resolve, Finds;
    ResolveKeeps(w);
    ApplyDecided(w, CapitalName(rule), Resolve(w));
    assert id !in Resolve(w).claimed by { FoundUnclaimed(w, rule, Resolve(w).claimed, k, id); }
    assert !Has(Resolve(w), k, id);
    assert !Given(w, CapitalName(rule), Resolve(w), k, id);
  }

  lemma FoundUnclaimed(w: World, rule: Rule, claimed: set<int>, k: string, id: int)
    requires Finds(w, CapitalName(rule), claimed, k, id)
    ensures id !in claimed
  {
  }
}

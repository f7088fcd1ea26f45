/** Resolving the city groups: by state code, by the vote of their cities, then by capital
    names until a whole round claims nothing more. */
module GeoResolve {
  import opened Outcomes
  import opened GeoData
  import opened GeoVotes
  import opened GeoAssign
  import opened Sets

  /** What the city phase works on: the package, the states, the states by key, the cities. */
  datatype World = World(atlas: Atlas, places: seq<Place>, keys: map<string, int>, labels: seq<Label>)

  function PlaceCountry(p: Place): string {
    p.countryCode
  }

  function PlacesOf(w: World, cc: string): (r: seq<Place>)
    ensures forall p :: p in r <==> p in w.places && p.countryCode == cc
  {
    Members(w.places, PlaceCountry, cc)
  }

  function GroupOf(w: World, k: string): (r: seq<Label>)
    ensures forall l :: l in r <==> l in w.labels && GroupKey(l) == k
  {
    Members(w.labels, GroupKey, k)
  }

  function Ids(w: World): set<int> {
    set p | p in w.places :: p.id
  }

  /** The first state of this normalised name. */
  function FindNamed(places: seq<Place>, normalize: string -> string, name: string): (r: Option<int>)
    ensures r.Some? ==> exists p :: p in places && p.id == r.value
  {
    if places == [] then None
    else if normalize(places[0].name) == name then Some(places[0].id)
    else
      var rest := FindNamed(places[1..], normalize, name);
      assert rest.Some? ==> forall p :: p in places[1..] ==> p in places;
      rest
  }

  function PadStart2(s: string): string {
    if |s| == 0 then "00" else if |s| == 1 then "0" + s else s
  }

  /** The state with the group's code, else with the code padded to two digits, else with
      the code's legacy name. */
  function StateCodeGuess(w: World, key: string, l: Label): Option<int> {
    if key in w.keys then Some(w.keys[key])
    else
      var padded := StateKey(l.countryCode, PadStart2(l.stateCode));
      if padded in w.keys then Some(w.keys[padded])
      else
        var alias := AliasOf(l.countryCode, l.stateCode);
        if alias == "" then None
        else FindNamed(PlacesOf(w, l.countryCode), w.atlas.normalize, w.atlas.normalize(alias))
  }

  predicate Named(a: Atlas, rule: Rule, cityName: string, stateName: string) {
    match rule
    case Words => a.wordKey(cityName) == a.wordKey(stateName)
    case Prefix => a.normalize(stateName) + " " <= a.normalize(cityName)
  }

  /** The unclaimed states named after a city of the group. */
  function NamedAfter(a: Atlas, rule: Rule, places: seq<Place>, group: seq<Label>, claimed: set<int>): (r: seq<Place>)
    ensures forall p :: p in r ==> p in places && p.id !in claimed
  {
    if places == [] then []
    else
      var n := |places| - 1;
      NamedAfter(a, rule, places[..n], group, claimed)
      + if places[n].id !in claimed && exists l :: l in group && Named(a, rule, l.name, places[n].name) then [places[n]] else []
  }

  /** The state this stage picks for a group, given the claims so far. */
  ghost function Choice(w: World, stage: Stage, st: Claims, k: string): Option<int>
    requires GroupOf(w, k) != []
  {
    var group := GroupOf(w, k);
    match stage
    case StateCode =>
      var guess := StateCodeGuess(w, k, group[0]);
      if guess.Some? && guess.value != 0 then guess else None
    case GroupVote =>
      if k in st.byGroup then None
      else MajorityOf(w.atlas, w.keys, group)
    case CapitalName(rule) =>
      if k in st.byGroup then None
      else
        var candidates := NamedAfter(w.atlas, rule, PlacesOf(w, group[0].countryCode), group, st.claimed);
        if |candidates| == 1 then Some(candidates[0].id) else None
  }

  ghost predicate Chooses(w: World, stage: Stage, st: Claims, k: string) {
    GroupOf(w, k) != [] && Choice(w, stage, st, k).Some?
  }

  ghost function Picks(w: World, stage: Stage, st: Claims): map<string, int> {
    map k | k in FirstSeen(w.labels, GroupKey) && Chooses(w, stage, st, k) :: Choice(w, stage, st, k).value
  }

  ghost function Apply(w: World, stage: Stage, st: Claims): Claims {
    Assigned(w.labels, st, Picks(w, stage, st), stage)
  }

  /** One round: exact names first, then prefixes. */
  ghost function Round(w: World, st: Claims): Claims {
    Apply(w, CapitalName(Prefix), Apply(w, CapitalName(Words), st))
  }

  /** Rounds repeat while they claim more states. */
  ghost function Rounds(w: World, st: Claims): Claims
    decreases |Ids(w) - st.claimed|
  {
    var next := Round(w, st);
    RoundClaims(w, st);
    if |next.claimed| > |st.claimed| then
      MoreClaimed(w, st);
      Rounds(w, next)
    else next
  }

  ghost function Resolve(w: World): Claims {
    Rounds(w, Apply(w, GroupVote, Apply(w, StateCode, NoClaims)))
  }

  // ---------------------------------------------------------------------------------
  // Termination and fixpoint of the rounds

  lemma CapitalPicksIds(w: World, rule: Rule, st: Claims)
    ensures Picks(w, CapitalName(rule), st).Values <= Ids(w)
  {
    hide NamedAfter, Members, FirstSeen;
    var picks := Picks(w, CapitalName(rule), st);
    forall k | k in picks
      ensures picks[k] in Ids(w)
    {
      var cs := NamedAfter(w.atlas, rule, PlacesOf(w, GroupOf(w, k)[0].countryCode), GroupOf(w, k), st.claimed);
      assert cs[0] in cs;
    }
  }

  /** A capital-name pass that claims nothing changes nothing. */
  lemma PassClaims(w: World, rule: Rule, st: Claims)
    ensures var r := Apply(w, CapitalName(rule), st);
            && st.claimed <= r.claimed <= st.claimed + Ids(w)
            && (r.claimed == st.claimed ==> r == st)
  {
    hide Assigned, Picks, Ids;
    var picks := Picks(w, CapitalName(rule), st);
    CapitalPicksIds(w, rule, st);
    NothingClaimed(w.labels, st, picks, CapitalName(rule));
    assert forall id :: id in Apply(w, CapitalName(rule), st).claimed ==> id in st.claimed || id in Ids(w);
  }

  lemma RoundClaims(w: World, st: Claims)
    ensures var next := Round(w, st); st.claimed <= next.claimed <= st.claimed + Ids(w)
  {
    hide Apply, Ids;
    PassClaims(w, Words, st);
    PassClaims(w, Prefix, Apply(w, CapitalName(Words), st));
  }

  /** A round that claims more leaves strictly fewer states unclaimed. */
  lemma MoreClaimed(w: World, st: Claims)
    ensures |Round(w, st).claimed| > |st.claimed| ==> |Ids(w) - Round(w, st).claimed| < |Ids(w) - st.claimed|
  {
    hide Round, Ids;
    RoundClaims(w, st);
    var next := Round(w, st);
    if |next.claimed| > |st.claimed| {
      Fewer(Ids(w), st.claimed, next.claimed);
    }
  }

  lemma Fewer(all: set<int>, s: set<int>, t: set<int>)
    requires s <= t <= s + all && |t| > |s|
    ensures |all - t| < |all - s|
  {
    assert t == s + (t - s);
    assert all - s == (all - t) + (t - s);
  }

  /** The rounds end where neither pass changes anything any more. */
  lemma {:induction false} RoundsFixpoint(w: World, st: Claims)
    ensures var r := Rounds(w, st);
            Apply(w, CapitalName(Words), r) == r && Apply(w, CapitalName(Prefix), r) == r
    decreases |Ids(w) - st.claimed|
  {
    hide Apply, Ids;
    var next := Round(w, st);
    if |next.claimed| > |st.claimed| {
      MoreClaimed(w, st);
      RoundsFixpoint(w, next);
    } else {
      var middle := Apply(w, CapitalName(Words), st);
      PassClaims(w, Words, st);
      PassClaims(w, Prefix, middle);
      SubsetSize(st.claimed, next.claimed);
    }
  }

  // ---------------------------------------------------------------------------------
  // What every stage keeps

  lemma PendingOnly(w: World, stage: Stage, st: Claims)
    requires stage.StateCode? ==> st == NoClaims
    ensures Picks(w, stage, st).Keys !! st.byGroup.Keys
  {
    hide Majority, NamedAfter, StateCodeGuess, Members, FirstSeen;
  }

  lemma StageKeeps(w: World, stage: Stage, st: Claims)
    requires ClaimsOk(w.labels, st) && (stage.StateCode? ==> st == NoClaims)
    ensures ClaimsOk(w.labels, Apply(w, stage, st)) && Extends(st, Apply(w, stage, st))
  {
    hide ClaimsOk, Assigned, Picks, Extends;
    PendingOnly(w, stage, st);
    AssignKeeps(w.labels, st, Picks(w, stage, st), stage);
  }

  lemma {:induction false} RoundsKeep(w: World, st: Claims)
    requires ClaimsOk(w.labels, st)
    ensures ClaimsOk(w.labels, Rounds(w, st)) && Extends(st, Rounds(w, st))
    decreases |Ids(w) - st.claimed|
  {
    hide ClaimsOk, Apply, Extends, Ids;
    var middle, next := Apply(w, CapitalName(Words), st), Round(w, st);
    StageKeeps(w, CapitalName(Words), st);
    StageKeeps(w, CapitalName(Prefix), middle);
    ExtendsTrans(st, middle, next);
    if |next.claimed| > |st.claimed| {
      MoreClaimed(w, st);
      RoundsKeep(w, next);
      ExtendsTrans(st, next, Rounds(w, next));
    }
  }

  lemma NoClaimsOk(labels: seq<Label>)
    ensures ClaimsOk(labels, NoClaims)
  {
    NoCount(labels);
    assert NoClaims.byGroup.Keys == {};
  }

  /** Each state is given to at most one group, the counts add up to the cities resolved,
      later stages leave earlier assignments alone, and no capital-name pass has more to add. */
  lemma ResolveKeeps(w: World)
    ensures ClaimsOk(w.labels, Resolve(w))
    ensures var codes := Apply(w, StateCode, NoClaims);
            var votes := Apply(w, GroupVote, codes);
            Extends(codes, votes) && Extends(votes, Resolve(w))
    ensures Apply(w, CapitalName(Words), Resolve(w)) == Resolve(w)
    ensures Apply(w, CapitalName(Prefix), Resolve(w)) == Resolve(w)
  {
    hide ClaimsOk, Apply, Extends, Rounds;
    NoClaimsOk(w.labels);
    StageKeeps(w, StateCode, NoClaims);
    var codes := Apply(w, StateCode, NoClaims);
    StageKeeps(w, GroupVote, codes);
    RoundsKeep(w, Apply(w, GroupVote, codes));
    RoundsFixpoint(w, Apply(w, GroupVote, codes));
  }
}

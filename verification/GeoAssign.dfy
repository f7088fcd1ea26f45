/** Giving database states to city groups. A pick counts only when no other group picks the
    same state and no group has it yet, so the result does not depend on the order in which
    the picks are visited. */
module GeoAssign {
  import opened GeoData
  import opened GeoVotes

  datatype Rule = Words | Prefix

  datatype Stage = StateCode | GroupVote | CapitalName(rule: Rule)

  /** The state given to each group, the states given away, and how many cities each method
      has resolved. */
  datatype Claims = Claims(byGroup: map<string, int>, claimed: set<int>, stateCode: nat, groupVote: nat, capitalName: nat)

  const NoClaims := Claims(map[], {}, 0, 0, 0)

  function Resolved(st: Claims): nat {
    st.stateCode + st.groupVote + st.capitalName
  }

  function Credit(st: Claims, stage: Stage, n: nat): (r: Claims)
    ensures r.byGroup == st.byGroup && r.claimed == st.claimed && Resolved(r) == Resolved(st) + n
  {
    match stage
    case StateCode => st.(stateCode := st.stateCode + n)
    case GroupVote => st.(groupVote := st.groupVote + n)
    case CapitalName(_) => st.(capitalName := st.capitalName + n)
  }

  /** Number of cities in the groups with these keys. */
  function CountIn(labels: seq<Label>, ks: set<string>): nat {
    if labels == [] then 0
    else CountIn(labels[..|labels| - 1], ks) + if GroupKey(labels[|labels| - 1]) in ks then 1 else 0
  }

  /** The groups whose pick is theirs alone and still free. */
  function Winners(picks: map<string, int>, claimed: set<int>): set<string> {
    set k | k in picks && picks[k] !in claimed && forall j :: j in picks && picks[j] == picks[k] ==> j == k
  }

  function Give(labels: seq<Label>, st: Claims, picks: map<string, int>, ks: set<string>, stage: Stage): Claims
    requires ks <= picks.Keys
  {
    Credit(Claims(st.byGroup + map k | k in ks :: picks[k], st.claimed + (set k | k in ks :: picks[k]),
                  st.stateCode, st.groupVote, st.capitalName),
           stage, CountIn(labels, ks))
  }

  function Assigned(labels: seq<Label>, st: Claims, picks: map<string, int>, stage: Stage): Claims {
    Give(labels, st, picks, Winners(picks, st.claimed), stage)
  }

  // ---------------------------------------------------------------------------------
  // The two loops

  /** The keys of a map in some order. */
  ghost predicate OrderOf(order: seq<string>, picks: map<string, int>) {
    && (forall k :: k in order <==> k in picks)
    && (forall i, j :: 0 <= i < j < |order| ==> order[i] != order[j])
  }

  ghost function PickCount(picks: map<string, int>, order: seq<string>, n: nat, id: int): nat
    requires n <= |order| && forall k :: k in order ==> k in picks
  {
    if n == 0 then 0 else PickCount(picks, order, n - 1, id) + if picks[order[n - 1]] == id then 1 else 0
  }

  lemma {:induction false} PickedOnce(picks: map<string, int>, order: seq<string>, n: nat, k: string)
    requires n <= |order| && OrderOf(order, picks) && k in picks
    ensures k !in order[..n] ==> (PickCount(picks, order, n, picks[k]) == 0 <==> forall j :: j in order[..n] ==> picks[j] != picks[k])
    ensures k in order[..n] ==> (PickCount(picks, order, n, picks[k]) == 1 <==>
                                 forall j :: j in order[..n] && picks[j] == picks[k] ==> j == k)
    ensures k in order[..n] ==> PickCount(picks, order, n, picks[k]) >= 1
  {
    if n > 0 {
      PickedOnce(picks, order, n - 1, k);
      PickStep(picks, order, n, k);
    }
  }

  lemma PickStep(picks: map<string, int>, order: seq<string>, n: nat, k: string)
    requires 0 < n <= |order| && OrderOf(order, picks) && k in picks
    ensures order[..n] == order[..n - 1] + [order[n - 1]]
    ensures order[n - 1] !in order[..n - 1]
  {
  }

  /** The groups of the first n keys that win. */
  ghost function WinnersAmong(picks: map<string, int>, claimed: set<int>, order: seq<string>, n: nat): set<string>
    requires n <= |order|
  {
    set k | k in Winners(picks, claimed) && k in order[..n]
  }

  /** One more winner. */
  lemma GiveOne(labels: seq<Label>, st: Claims, picks: map<string, int>, ks: set<string>, stage: Stage, k: string, n: nat)
    requires ks <= picks.Keys && k in picks && k !in ks && n == |Members(labels, GroupKey, k)|
    ensures var now := Give(labels, st, picks, ks, stage);
            Credit(now.(byGroup := now.byGroup[k := picks[k]], claimed := now.claimed + {picks[k]}), stage, n)
            == Give(labels, st, picks, ks + {k}, stage)
  {
    hide CountIn, Members;
    CountOneMore(labels, ks, k);
    OneMoreGiven(st.byGroup, picks, ks, k);
    OneMoreClaimed(st.claimed, picks, ks, k);
  }

  lemma OneMoreGiven(byGroup: map<string, int>, picks: map<string, int>, ks: set<string>, k: string)
    requires ks <= picks.Keys && k in picks && k !in ks
    ensures byGroup + (map q | q in ks + {k} :: picks[q]) == (byGroup + map q | q in ks :: picks[q])[k := picks[k]]
  {
  }

  lemma OneMoreClaimed(claimed: set<int>, picks: map<string, int>, ks: set<string>, k: string)
    requires ks <= picks.Keys && k in picks
    ensures claimed + (set q | q in ks + {k} :: picks[q]) == claimed + (set q | q in ks :: picks[q]) + {picks[k]}
  {
    assert (set q | q in ks + {k} :: picks[q]) == (set q | q in ks :: picks[q]) + {picks[k]};
  }

  lemma {:induction false} CountOneMore(labels: seq<Label>, ks: set<string>, k: string)
    requires k !in ks
    ensures CountIn(labels, ks + {k}) == CountIn(labels, ks) + |Members(labels, GroupKey, k)|
  {
    if labels != [] {
      CountOneMore(labels[..|labels| - 1], ks, k);
    }
  }

  method CountPicks(picks: map<string, int>, order: seq<string>) returns (groupsPerState: map<int, nat>)
    requires OrderOf(order, picks)
    ensures forall k :: k in picks ==>
              picks[k] in groupsPerState && groupsPerState[picks[k]] == PickCount(picks, order, |order|, picks[k])
  {
    groupsPerState := map[];
    for i := 0 to |order|
      invariant forall id :: (if id in groupsPerState then groupsPerState[id] else 0) == PickCount(picks, order, i, id)
    {
      assert order[i] in picks;
      var id := picks[order[i]];
      groupsPerState := groupsPerState[id := 1 + if id in groupsPerState then groupsPerState[id] else 0];
    }
    assert order[..|order|] == order;
    forall k | k in picks
      ensures picks[k] in groupsPerState
    {
      PickedOnce(picks, order, |order|, k);
    }
  }

  /** Whatever the order of the picks, the winners get their states and nothing else changes. */
  method Assign(labels: seq<Label>, groups: map<string, seq<Label>>, st: Claims, picks: map<string, int>,
                order: seq<string>, stage: Stage) returns (r: Claims)
    requires OrderOf(order, picks)
    requires forall k :: k in picks ==> k in groups && groups[k] == Members(labels, GroupKey, k)
    ensures r == Assigned(labels, st, picks, stage)
  {
    hide Give, Winners, WinnersAmong, CountIn, PickCount, Members, Credit;
    var groupsPerState := CountPicks(picks, order);
    r := st;
    NoneYet(labels, st, picks, order, stage);
    for i := 0 to |order|
      invariant WinnersAmong(picks, st.claimed, order, i) <= picks.Keys
      invariant r == Give(labels, st, picks, WinnersAmong(picks, st.claimed, order, i), stage)
    {
      var k := order[i];
      assert k in order && k in picks;
      ghost var ks := WinnersAmong(picks, st.claimed, order, i);
      Decide(labels, st, picks, order, i, stage);
      if 1 == groupsPerState[picks[k]] && picks[k] !in r.claimed {
        GiveOne(labels, st, picks, ks, stage, k, |groups[k]|);
        r := r.(byGroup := r.byGroup[k := picks[k]], claimed := r.claimed + {picks[k]});
        r := Credit(r, stage, |groups[k]|);
      }
    }
    AllSeen(picks, st.claimed, order);
  }

  lemma NoneYet(labels: seq<Label>, st: Claims, picks: map<string, int>, order: seq<string>, stage: Stage)
    ensures WinnersAmong(picks, st.claimed, order, 0) == {}
    ensures Give(labels, st, picks, {}, stage) == st
  {
    NoCount(labels);
  }

  lemma {:induction false} NoCount(labels: seq<Label>)
    ensures CountIn(labels, {}) == 0
  {
    if labels != [] {
      NoCount(labels[..|labels| - 1]);
    }
  }

  lemma AllSeen(picks: map<string, int>, claimed: set<int>, order: seq<string>)
    requires OrderOf(order, picks)
    ensures WinnersAmong(picks, claimed, order, |order|) == Winners(picks, claimed)
  {
    assert order[..|order|] == order;
  }

  /** The loop's test, made against the claims so far, picks out exactly the winners. */
  lemma Decide(labels: seq<Label>, st: Claims, picks: map<string, int>, order: seq<string>, i: nat, stage: Stage)
    requires i < |order| && OrderOf(order, picks)
    requires WinnersAmong(picks, st.claimed, order, i) <= picks.Keys
    ensures var ks := WinnersAmong(picks, st.claimed, order, i);
            var r := Give(labels, st, picks, ks, stage);
            var k := order[i];
            && k in picks && k !in ks
            && WinnersAmong(picks, st.claimed, order, i + 1) ==
               if PickCount(picks, order, |order|, picks[k]) == 1 && picks[k] !in r.claimed then ks + {k} else ks
  {
    hide CountIn, PickCount;
    var k := order[i];
    assert k in order;
    assert order[..i + 1] == order[..i] + [k];
    assert order[..|order|] == order;
    PickedOnce(picks, order, |order|, k);
    var ks := WinnersAmong(picks, st.claimed, order, i);
    assert k !in ks;
    assert forall q :: q in ks ==> q in order[..i] && q != k;
  }

  // ---------------------------------------------------------------------------------
  // What an assignment keeps

  /** Every state belongs to one group, exactly the given states are claimed, and the counts
      add up to the cities of the groups that have a state. */
  ghost predicate ClaimsOk(labels: seq<Label>, st: Claims) {
    && (forall j, k :: j in st.byGroup && k in st.byGroup && st.byGroup[j] == st.byGroup[k] ==> j == k)
    && (forall k :: k in st.byGroup ==> st.byGroup[k] in st.claimed)
    && (forall id :: id in st.claimed ==> exists k :: k in st.byGroup && st.byGroup[k] == id)
    && Resolved(st) == CountIn(labels, st.byGroup.Keys)
  }

  /** st' has all of st's assignments. */
  ghost predicate Extends(st: Claims, st': Claims) {
    && (forall k :: k in st.byGroup ==> k in st'.byGroup && st'.byGroup[k] == st.byGroup[k])
    && st.claimed <= st'.claimed
  }

  lemma ExtendsTrans(st: Claims, st1: Claims, st2: Claims)
    requires Extends(st, st1) && Extends(st1, st2)
    ensures Extends(st, st2)
  {
  }

  lemma {:induction false} CountDisjoint(labels: seq<Label>, ks: set<string>, js: set<string>)
    requires ks !! js
    ensures CountIn(labels, ks + js) == CountIn(labels, ks) + CountIn(labels, js)
  {
    if labels != [] {
      CountDisjoint(labels[..|labels| - 1], ks, js);
    }
  }

  lemma AssignKeeps(labels: seq<Label>, st: Claims, picks: map<string, int>, stage: Stage)
    requires ClaimsOk(labels, st) && picks.Keys !! st.byGroup.Keys
    ensures var r := Assigned(labels, st, picks, stage); ClaimsOk(labels, r) && Extends(st, r)
  {
    hide CountIn, Credit, ClaimsOk;
    var r := Assigned(labels, st, picks, stage);
    var ws := Winners(picks, st.claimed);
    assert r.byGroup.Keys == st.byGroup.Keys + ws;
    ClaimsStayOk(labels, st, picks, ws, r);
  }

  lemma ClaimsStayOk(labels: seq<Label>, st: Claims, picks: map<string, int>, ws: set<string>, r: Claims)
    requires ClaimsOk(labels, st) && ws <= picks.Keys && picks.Keys !! st.byGroup.Keys
    requires r.byGroup.Keys == st.byGroup.Keys + ws
    requires forall k :: k in r.byGroup ==> r.byGroup[k] == if k in ws then picks[k] else st.byGroup[k]
    requires r.claimed == st.claimed + set k | k in ws :: picks[k]
    requires forall k :: k in ws ==> picks[k] !in st.claimed && forall j :: j in ws && picks[j] == picks[k] ==> j == k
    requires Resolved(r) == Resolved(st) + CountIn(labels, ws)
    ensures ClaimsOk(labels, r)
  {
    hide CountIn;
    CountDisjoint(labels, st.byGroup.Keys, ws);
    forall id | id in r.claimed
      ensures exists k :: k in r.byGroup && r.byGroup[k] == id
    {
      if id in st.claimed {
        var k :| k in st.byGroup && st.byGroup[k] == id;
        assert r.byGroup[k] == id;
      } else {
        var k :| k in ws && picks[k] == id;
        assert r.byGroup[k] == id;
      }
    }
  }

  /** An assignment that claims no further state changes nothing at all. */
  lemma NothingClaimed(labels: seq<Label>, st: Claims, picks: map<string, int>, stage: Stage)
    ensures var r := Assigned(labels, st, picks, stage);
            && st.claimed <= r.claimed
            && (forall id :: id in r.claimed ==> id in st.claimed || id in picks.Values)
            && (r.claimed == st.claimed ==> r == st)
  {
    var r := Assigned(labels, st, picks, stage);
    var ws := Winners(picks, st.claimed);
    forall k | k in ws
      ensures picks[k] in r.claimed && picks[k] !in st.claimed
    {
      assert picks[k] in (set q | q in ws :: picks[q]);
    }
    if r.claimed == st.claimed {
      assert ws == {};
      NoneYet(labels, st, picks, [], stage);
    }
  }
}

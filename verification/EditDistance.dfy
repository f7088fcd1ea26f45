/** The fuzzy name score of the geo repair script: a two-row dynamic program that is
    proved to compute the edit distance, and edit distance itself is proved to be the
    cost of the cheapest edit script between the two names. */
module EditDistance {

  function Min3(x: nat, y: nat, z: nat): nat {
    if x <= y && x <= z then x else if y <= z then y else z
  }

  function Longer(a: string, b: string): nat {
    if |a| >= |b| then |a| else |b|
  }

  function Last(s: string): char
    requires s != []
  {
    s[|s| - 1]
  }

  function Init(s: string): string
    requires s != []
  {
    s[..|s| - 1]
  }

  /** Edit distance by the last characters of the two strings. */
  function Distance(a: string, b: string): nat
    decreases |a| + |b|
  {
    if a == [] then |b|
    else if b == [] then |a|
    else Min3(Distance(Init(a), b) + 1,
              Distance(a, Init(b)) + 1,
              Distance(Init(a), Init(b)) + if Last(a) == Last(b) then 0 else 1)
  }

  function Similarity(a: string, b: string): real {
    if a == [] || b == [] then 0.0
    else 1.0 - Distance(a, b) as real / Longer(a, b) as real
  }

  /** One edit, as it reads a source string and writes a target string. */
  datatype Edit = Keep(c: char) | Replace(from: char, to: char) | Delete(c: char) | Insert(c: char) {
    function Reads(): string {
      match this
      case Keep(c) => [c]
      case Replace(c, _) => [c]
      case Delete(c) => [c]
      case Insert(_) => []
    }

    function Writes(): string {
      match this
      case Keep(c) => [c]
      case Replace(_, d) => [d]
      case Delete(_) => []
      case Insert(c) => [c]
    }

    function Cost(): nat {
      if Keep? then 0 else 1
    }
  }

  function Source(script: seq<Edit>): string {
    if script == [] then [] else Source(script[..|script| - 1]) + script[|script| - 1].Reads()
  }

  function Target(script: seq<Edit>): string {
    if script == [] then [] else Target(script[..|script| - 1]) + script[|script| - 1].Writes()
  }

  function ScriptCost(script: seq<Edit>): nat {
    if script == [] then 0 else ScriptCost(script[..|script| - 1]) + script[|script| - 1].Cost()
  }

  ghost predicate Turns(script: seq<Edit>, a: string, b: string) {
    Source(script) == a && Target(script) == b
  }

  lemma Extend(script: seq<Edit>, e: Edit)
    ensures Source(script + [e]) == Source(script) + e.Reads()
    ensures Target(script + [e]) == Target(script) + e.Writes()
    ensures ScriptCost(script + [e]) == ScriptCost(script) + e.Cost()
  {
    assert (script + [e])[..|script|] == script;
  }

  lemma Split(s: string)
    requires s != []
    ensures Init(s) + [Last(s)] == s
  {
  }

  /** Some script turns a into b at the cost Distance(a, b). */
  lemma {:induction false} CheapestScript(a: string, b: string) returns (script: seq<Edit>)
    ensures Turns(script, a, b) && ScriptCost(script) == Distance(a, b)
    decreases |a| + |b|
  {
    if a == [] && b == [] {
      script := [];
    } else if b == [] || (a != [] && Distance(a, b) == Distance(Init(a), b) + 1) {
      var rest := CheapestScript(Init(a), b);
      script := rest + [Delete(Last(a))];
      Extend(rest, Delete(Last(a)));
      Split(a);
      assert b + [] == b;
    } else if a == [] || Distance(a, b) == Distance(a, Init(b)) + 1 {
      var rest := CheapestScript(a, Init(b));
      script := rest + [Insert(Last(b))];
      Extend(rest, Insert(Last(b)));
      Split(b);
      assert a + [] == a;
    } else {
      var rest := CheapestScript(Init(a), Init(b));
      var e := if Last(a) == Last(b) then Keep(Last(a)) else Replace(Last(a), Last(b));
      script := rest + [e];
      Extend(rest, e);
      Split(a);
      Split(b);
    }
  }

  /** Appending one character to either string, or to both, costs at most one edit. */
  lemma DistanceSteps(a: string, b: string, c: char, d: char)
    ensures Distance(a + [c], b) <= Distance(a, b) + 1
    ensures Distance(a, b + [d]) <= Distance(a, b) + 1
    ensures Distance(a + [c], b + [d]) <= Distance(a, b) + if c == d then 0 else 1
  {
    assert Init(a + [c]) == a && Init(b + [d]) == b;
  }

  /** No script turns a into b for less than Distance(a, b). */
  lemma {:induction false} NoCheaperScript(script: seq<Edit>)
    ensures Distance(Source(script), Target(script)) <= ScriptCost(script)
  {
    if script != [] {
      var rest, e := script[..|script| - 1], script[|script| - 1];
      NoCheaperScript(rest);
      var a, b := Source(rest), Target(rest);
      match e {
        case Keep(c) => DistanceSteps(a, b, c, c);
        case Replace(c, d) => DistanceSteps(a, b, c, d);
        case Delete(c) => DistanceSteps(a, b, c, c); assert b + [] == b;
        case Insert(d) => DistanceSteps(a, b, d, d); assert a + [] == a;
      }
    }
  }

  /** Distance(a, b) is the least cost of any script from a to b. */
  lemma DistanceIsLeastCost(a: string, b: string)
    ensures exists script :: Turns(script, a, b) && ScriptCost(script) == Distance(a, b)
    ensures forall script :: Turns(script, a, b) ==> Distance(a, b) <= ScriptCost(script)
  {
    var cheapest := CheapestScript(a, b);
    forall script | Turns(script, a, b)
      ensures Distance(a, b) <= ScriptCost(script)
    {
      NoCheaperScript(script);
    }
  }

  lemma {:induction false} DistanceSymmetric(a: string, b: string)
    ensures Distance(a, b) == Distance(b, a)
    decreases |a| + |b|
  {
    if a != [] && b != [] {
      DistanceSymmetric(Init(a), b);
      DistanceSymmetric(a, Init(b));
      DistanceSymmetric(Init(a), Init(b));
    }
  }

  lemma {:induction false} DistanceZeroIffEqual(a: string, b: string)
    ensures Distance(a, b) == 0 <==> a == b
    decreases |a| + |b|
  {
    if a != [] && b != [] {
      DistanceZeroIffEqual(Init(a), Init(b));
      assert a == Init(a) + [Last(a)] && b == Init(b) + [Last(b)];
    }
  }

  lemma {:induction false} DistanceAtMostLonger(a: string, b: string)
    ensures Distance(a, b) <= Longer(a, b)
    decreases |a| + |b|
  {
    if a != [] && b != [] {
      DistanceAtMostLonger(Init(a), Init(b));
    }
  }

  /** The score is symmetric, lies in [0, 1] and is 1 exactly for equal non-empty names. */
  lemma SimilarityLaws(a: string, b: string)
    ensures Similarity(a, b) == Similarity(b, a)
    ensures 0.0 <= Similarity(a, b) <= 1.0
    ensures Similarity(a, b) == 1.0 <==> a != [] && a == b
  {
    DistanceSymmetric(a, b);
    DistanceZeroIffEqual(a, b);
    DistanceAtMostLonger(a, b);
    if a != [] && b != [] {
      var d, m := Distance(a, b) as real, Longer(a, b) as real;
      assert 0.0 <= d <= m && 0.0 < m;
      RatioBounds(d, m);
    }
  }

  lemma RatioBounds(d: real, m: real)
    requires 0.0 <= d <= m && 0.0 < m
    ensures 0.0 <= d / m <= 1.0
    ensures d / m == 0.0 <==> d == 0.0
  {
  }

  /** One cell of the table from the three cells it looks at. */
  lemma Cell(a: string, b: string, i: nat, j: nat)
    requires 1 <= i <= |a| && 1 <= j <= |b|
    ensures Distance(a[..i], b[..j])
         == Min3(Distance(a[..i - 1], b[..j]) + 1, Distance(a[..i], b[..j - 1]) + 1,
                 Distance(a[..i - 1], b[..j - 1]) + if a[i - 1] == b[j - 1] then 0 else 1)
  {
    hide Distance;
    var p, q := a[..i], b[..j];
    assert Init(p) == a[..i - 1] && Last(p) == a[i - 1];
    assert Init(q) == b[..j - 1] && Last(q) == b[j - 1];
    DistanceStep(p, q);
  }

  lemma DistanceStep(p: string, q: string)
    requires p != [] && q != []
    ensures Distance(p, q) == Min3(Distance(Init(p), q) + 1, Distance(p, Init(q)) + 1,
                                   Distance(Init(p), Init(q)) + if Last(p) == Last(q) then 0 else 1)
  {
    hide Init, Last;
  }

  lemma LeftEdge(a: string, b: string, i: nat)
    requires i <= |a|
    ensures Distance(a[..i], b[..0]) == i
  {
  }

  /** Row i of the table: the distances from a[..i] to every prefix of b. */
  ghost predicate IsRow(row: seq<nat>, a: string, b: string, i: nat)
    requires i <= |a|
  {
    && |row| == |b| + 1
    && forall j :: 0 <= j <= |b| ==> row[j] == Distance(a[..i], b[..j])
  }

  method NextRow(a: string, b: string, i: nat, prev: seq<nat>) returns (curr: seq<nat>)
    requires 1 <= i <= |a| && IsRow(prev, a, b, i - 1)
    ensures IsRow(curr, a, b, i)
  {
    hide Distance;
    LeftEdge(a, b, i);
    curr := [i];
    var j := 1;
    while j <= |b|
      invariant 1 <= j <= |b| + 1 && |curr| == j
      invariant forall k :: 0 <= k < j ==> curr[k] == Distance(a[..i], b[..k])
    {
      Cell(a, b, i, j);
      curr := curr + [Min3(prev[j] + 1, curr[j - 1] + 1,
                           prev[j - 1] + if a[i - 1] == b[j - 1] then 0 else 1)];
      j := j + 1;
    }
  }

  method ComputeSimilarity(a: string, b: string) returns (score: real)
    ensures score == Similarity(a, b)
  {
    if a == [] || b == [] {
      return 0.0;
    }
    var prev: seq<nat> := seq(|b| + 1, j => j);
    var i := 1;
    while i <= |a|
      invariant 1 <= i <= |a| + 1
      invariant IsRow(prev, a, b, i - 1)
    {
      prev := NextRow(a, b, i, prev);
      i := i + 1;
    }
    assert a[..|a|] == a && b[..|b|] == b;
    score := 1.0 - prev[|b|] as real / Longer(a, b) as real;
  }
}
